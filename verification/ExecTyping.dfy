/** What src/lib/ptyExec.ts types and when, told from the run and the terminal as they are in
    the very step: exactly when a line or a probe goes in, and what its timers are then. */
module ExecTyping {
  import opened Basics
  import opened ExecModel
  import opened ExecHistory
  import opened ExecEndings

  // ------------------------------------------------------------ the line

  /** The prompt that a line was built for still stands, and nothing else has changed. */
  predicate MayType(s: State, i: nat, canWrite: bool, mode: Mode, prompt: Prompt)
    requires i < |s.runs|
  {
    var r := s.runs[i];
    && r.aborted.None? && canWrite && !Late(r, s.now) && s.w.remote == r.remote
    && !EpochGone(r, s.w) && Untouched(prompt, s.w) && !NoShellPrompt(mode, s.w)
  }

  /** The run has just waited for a prompt that suits its mode, and its line can be built. */
  predicate Accepts(s: State, i: nat, mode: Mode)
    requires i < |s.runs|
  {
    var r := s.runs[i];
    && r.stage.Waited? && r.stage.result.Ready? && r.aborted.None?
    && s.w.entry.Some? && !s.w.disposed && s.w.remote == r.remote
    && r.o.fits && (mode.Sentinel? ==> r.o.suffixable)
    && match r.stage.goal
       case ForIntegrated => mode.Integrated?
       case ForSentinel => mode.Sentinel?
       case ForCommand(keyboard) => mode.Sentinel? && s.w.Keyboard() == keyboard
       case ForProbe => false
  }

  /** The line goes in now: straight after its prompt, or when the claim for it is granted. */
  predicate Goes(s: State, i: nat, canWrite: bool, mode: Mode, prompt: Prompt)
    requires i < |s.runs|
  {
    && MayType(s, i, canWrite, mode, prompt)
    && (|| s.runs[i].stage == FinalClaimed(mode, prompt, true)
        || (Accepts(s, i, mode) && prompt == PromptOf(s.w) && (s.runs[i].o.claims ==> s.runs[i].authorized)))
  }

  predicate GoesBy(s: State, i: nat, e: RunEvent, mode: Mode, prompt: Prompt)
    requires i < |s.runs|
  {
    e.Resume? && Goes(s, i, e.canWrite, mode, prompt)
  }

  /** A job that has just been typed: nothing has been seen of it, and its timers run. */
  predicate NewlyLive(job: Job, r: Run, mode: Mode, now: int) {
    && job.mode == mode && job.bound.None? && job.foreign == 0 && job.completions == []
    && job.cause.None? && !job.pending && !job.confirmed && job.buffered.None? && job.ladder.None? && !job.proved
    && job.stall.None? && job.paused == 0 && job.lastTick == r.startedAt
    && job.bindAt == (if mode.Integrated? then Some(now + 5_000) else None)
    && job.deliveryAt == job.graceAt == job.gestureAt == None
    && job.deadlineAt == Some(r.startedAt + r.o.timeout) && job.refreshAt == now + 750
    && job.capAt == r.startedAt + r.o.timeout + 15_000
  }

  /** The step types the line of the run. */
  predicate Typed(s: State, t: State, i: nat, mode: Mode, prompt: Prompt)
    requires i < |s.runs|
  {
    && i < |t.runs| && t.runs[i].stage.Running? && NewlyLive(t.runs[i].stage.job, s.runs[i], mode, s.now)
    && t.job == Some(i) && t.log == s.log + [Line(i, mode, prompt, s.w)]
  }

  /** The step types nothing and starts no job. */
  predicate Untyped(s: State, t: State, i: nat) {
    i < |t.runs| && !t.runs[i].stage.Running? && forall x :: x in t.log[if |s.log| <= |t.log| then |s.log| else 0..] ==> !x.Line?
  }

  lemma Stays(s: State, t: State, i: nat, stage: Stage, outcome: Outcome)
    requires i < |t.runs| && t.log == s.log && !stage.Running?
    ensures Untyped(s, End(t, i, outcome), i) && Untyped(s, t.At(i, stage), i) && Untyped(s, t.At(i, stage).Write(Probe(i, s.w)), i)
  {
  }

  lemma DispatchTypes(s: State, t: State, i: nat, mode: Mode, prompt: Prompt, canWrite: bool)
    requires i < |s.runs| && !s.runs[i].stage.Running? && t == s.(proof := t.proof)
    ensures if MayType(s, i, canWrite, mode, prompt) then Typed(s, Dispatch(t, i, mode, prompt, canWrite), i, mode, prompt)
            else Untyped(s, Dispatch(t, i, mode, prompt, canWrite), i)
  {
    hide PromptBound, Untouched, EpochGone, NoShellPrompt, Typed, Untyped, End;
    var r := s.runs[i];
    BoundIs(r, mode, prompt, s.w);
    Stays(s, t, i, ProbeClaim, Failed(TerminalBusy));
    Stays(s, t, i, ProbeClaim, Failed(TargetChanged));
    Stays(s, t, i, ProbeClaim, r.AbortedOutcome());
    if !Late(r, s.now) { Launches(s, t, i, mode, prompt); }
  }

  lemma Launches(s: State, t: State, i: nat, mode: Mode, prompt: Prompt)
    requires i < |s.runs| && !s.runs[i].stage.Running? && t == s.(proof := t.proof) && !Late(s.runs[i], s.now)
    ensures var live := t.At(i, Running(NewJob(s.runs[i], mode, s.now))).(job := Some(i));
      Typed(s, live.Write(Line(i, mode, prompt, s.w)), i, mode, prompt) && Untyped(s, Finish(live, i, Failed(TargetChanged)), i)
  {
  }

  lemma PrepareTypes(s: State, t: State, i: nat, mode: Mode, canWrite: bool)
    requires i < |s.runs| && !s.runs[i].stage.Running? && t == s.(proof := t.proof)
    ensures var r, w := s.runs[i], s.w;
      if w.Live() && r.o.fits && (mode.Sentinel? ==> r.o.suffixable) && (r.o.claims ==> r.authorized)
         && MayType(s, i, canWrite, mode, PromptOf(w))
      then Typed(s, Prepare(t, i, mode, canWrite), i, mode, PromptOf(w))
      else Untyped(s, Prepare(t, i, mode, canWrite), i)
  {
    hide MayType, Typed, Untyped, Dispatch, End;
    var r := s.runs[i];
    DispatchTypes(s, t, i, mode, PromptOf(s.w), canWrite);
    Stays(s, t, i, FinalClaim(mode, PromptOf(s.w)), r.AbortedOutcome());
    Stays(s, t, i, ProbeClaim, Failed(TerminalClosed));
    Stays(s, t, i, ProbeClaim, Failed(Unsafe));
    Stays(s, t, i, ProbeClaim, Failed(TargetChanged));
    if MayType(s, i, canWrite, mode, PromptOf(s.w)) { InTime(s, i, canWrite, mode, PromptOf(s.w)); }
  }

  lemma InTime(s: State, i: nat, canWrite: bool, mode: Mode, prompt: Prompt)
    requires i < |s.runs| && MayType(s, i, canWrite, mode, prompt)
    ensures s.runs[i].aborted.None? && s.runs[i].Remaining(s.now) > 0 && s.w.remote == s.runs[i].remote
  {
  }

  /** The mode of the line that a wait was for. */
  function ModeOf(goal: Goal): Mode { if goal.ForIntegrated? then Integrated else Sentinel }

  lemma WaitTypes(s: State, i: nat, canWrite: bool)
    requires i < |s.runs| && s.runs[i].stage.Waited?
    ensures var mode, prompt := ModeOf(s.runs[i].stage.goal), PromptOf(s.w);
      if Goes(s, i, canWrite, mode, prompt) then Typed(s, AfterWait(s, i, canWrite), i, mode, prompt)
      else Untyped(s, AfterWait(s, i, canWrite), i)
  {
    hide MayType, Typed, Untyped, Prepare, SendProbe, NoPrompt, End;
    var r := s.runs[i];
    var goal := r.stage.goal;
    NoPromptTypes(s, i, r.stage.result);
    ProbeTypes(s, i);
    Stays(s, s, i, ProbeClaim, Failed(TargetChanged));
    Stays(s, s, i, ProbeClaim, r.AbortedOutcome());
    PrepareTypes(s, s, i, ModeOf(goal), canWrite);
    if MayType(s, i, canWrite, ModeOf(goal), PromptOf(s.w)) { InTime(s, i, canWrite, ModeOf(goal), PromptOf(s.w)); }
    PrepareTypes(s, RememberProof(s, r.remote), i, Sentinel, canWrite);
  }

  lemma NoPromptTypes(s: State, i: nat, result: Readiness)
    requires i < |s.runs|
    ensures Untyped(s, NoPrompt(s, i, result), i)
  {
  }

  lemma ProbeTypes(s: State, i: nat)
    requires i < |s.runs|
    ensures Untyped(s, SendProbe(s, i), i)
  {
    hide Untyped, End, NoPrompt, Still, Usable;
    var r := s.runs[i];
    var s1 := Reusable(s, r.remote).1;
    Stays(s, s1, i, Probed(s.w.Keyboard(), false), Failed(TargetChanged));
    Stays(s, s1, i, Probing(s.w.Keyboard(), s.now + Min(PROBE_WAIT_MS, r.DeadlineAt() - s.now)), r.AbortedOutcome());
    Unreached(s, s1, i);
  }

  lemma Unreached(s: State, t: State, i: nat)
    requires i < |t.runs| && t.log == s.log
    ensures Untyped(s, NoPrompt(t, i, NotReady), i)
  {
  }

  lemma FinalTypes(s: State, i: nat, canWrite: bool)
    requires i < |s.runs| && s.runs[i].stage.FinalClaimed?
    ensures var stage := s.runs[i].stage;
      if Goes(s, i, canWrite, stage.mode, stage.prompt) then Typed(s, AfterFinalClaim(s, i, canWrite), i, stage.mode, stage.prompt)
      else Untyped(s, AfterFinalClaim(s, i, canWrite), i)
  {
    hide MayType, Typed, Untyped, Dispatch, End;
    var r := s.runs[i];
    Stays(s, s, i, ProbeClaim, r.AbortedOutcome());
    Stays(s, s, i, ProbeClaim, Failed(TargetChanged));
    DispatchTypes(s, s, i, r.stage.mode, r.stage.prompt, canWrite);
    if MayType(s, i, canWrite, r.stage.mode, r.stage.prompt) { InTime(s, i, canWrite, r.stage.mode, r.stage.prompt); }
  }

  lemma EarlierTypes(s: State, i: nat, e: RunEvent)
    requires i < |s.runs| && !s.runs[i].stage.Running?
    requires e.Resume? ==> !s.runs[i].stage.Waited? && !s.runs[i].stage.FinalClaimed?
    ensures Untyped(s, PreflightStep(s, i, e), i)
  {
    hide Still;
  }

  /** A run's line is typed in exactly the steps that Goes describes, and then its job is new. */
  lemma LineTypedExactly(s: State, i: nat, e: RunEvent)
    requires i < |s.runs| && !s.runs[i].stage.Running?
    ensures forall mode, prompt :: GoesBy(s, i, e, mode, prompt) ==> Typed(s, PreflightStep(s, i, e), i, mode, prompt)
    ensures (forall mode, prompt :: !GoesBy(s, i, e, mode, prompt)) ==> Untyped(s, PreflightStep(s, i, e), i)
  {
    hide MayType, Typed, Untyped, AfterWait, AfterFinalClaim, AfterProbe, AfterProbeClaim;
    var stage := s.runs[i].stage;
    if e.Resume? && stage.Waited? {
      WaitTypes(s, i, e.canWrite);
      assert GoesBy(s, i, e, ModeOf(stage.goal), PromptOf(s.w)) <==> Goes(s, i, e.canWrite, ModeOf(stage.goal), PromptOf(s.w));
    } else if e.Resume? && stage.FinalClaimed? {
      FinalTypes(s, i, e.canWrite);
      assert GoesBy(s, i, e, stage.mode, stage.prompt) <==> Goes(s, i, e.canWrite, stage.mode, stage.prompt);
    } else {
      EarlierTypes(s, i, e);
    }
  }

  // ------------------------------------------------------------ the probe

  /** The probe may be typed: it was waited for, and the shell may be asked. */
  predicate Asks(s: State, i: nat, e: RunEvent)
    requires i < |s.runs|
  {
    var r := s.runs[i];
    && e.Resume? && r.stage == Waited(ForProbe, Ready) && r.aborted.None?
    && s.w.remote == r.remote && !Late(r, s.now)
    && (if r.approved.Some? then Untouched(r.approved.value, s.w) else r.o.attested ==> Proven(s, r.remote))
  }

  /** The step types the probe, and gives it ten seconds, or what is left of the run's time. */
  predicate Asked(s: State, t: State, i: nat)
    requires i < |s.runs|
  {
    && i < |t.runs| && t.log == s.log + [Probe(i, s.w)]
    && t.runs[i].stage.Probing? && t.runs[i].stage.keyboard == s.w.Keyboard()
    && var left := s.runs[i].startedAt + s.runs[i].o.timeout - s.now;
       t.runs[i].stage.deadline == s.now + if left < 10_000 then left else 10_000
  }

  predicate NotAsked(t: State, i: nat) { i < |t.runs| && !t.runs[i].stage.Probing? }

  lemma SendAsks(s: State, i: nat)
    requires i < |s.runs| && s.runs[i].stage == Waited(ForProbe, Ready) && s.w.remote == s.runs[i].remote
    ensures if Asks(s, i, Resume(true)) then Asked(s, SendProbe(s, i), i) else NotAsked(SendProbe(s, i), i)
  {
    hide Still, Untouched, Proven, Reusable, Asked, NotAsked, NoPrompt, End;
    var r := s.runs[i];
    ReusableIs(s, r.remote);
    if r.approved.Some? { StillIsUntouched(r.approved.value, s.w); }
    var s1 := Reusable(s, r.remote).1;
    NoneAsked(s1, i, NotReady, Failed(TargetChanged));
    NoneAsked(s1, i, NotReady, r.AbortedOutcome());
    Sent(s, s1, i);
  }

  lemma Sent(s: State, t: State, i: nat)
    requires i < |s.runs| && t == s.(proof := t.proof)
    ensures Asked(s, t.At(i, Probing(s.w.Keyboard(), s.now + Min(PROBE_WAIT_MS, s.runs[i].DeadlineAt() - s.now))).Write(Probe(i, s.w)), i)
    ensures NotAsked(t.At(i, Probed(s.w.Keyboard(), false)), i)
  {
  }

  lemma NoneAsked(s: State, i: nat, result: Readiness, outcome: Outcome)
    requires i < |s.runs|
    ensures NotAsked(NoPrompt(s, i, result), i) && NotAsked(End(s, i, outcome), i)
  {
  }

  lemma NoProbe(s: State, i: nat, mode: Mode, prompt: Prompt, canWrite: bool)
    requires i < |s.runs|
    ensures NotAsked(Dispatch(s, i, mode, prompt, canWrite), i)
  {
    hide PromptBound, NewJob, End, NotAsked;
    NoneAsked(s, i, NotReady, Failed(TerminalBusy));
    NoneAsked(s, i, NotReady, Failed(TargetChanged));
    NoneAsked(s, i, NotReady, s.runs[i].AbortedOutcome());
    Launched(s.At(i, Running(NewJob(s.runs[i], mode, s.now))).(job := Some(i)), i, Line(i, mode, prompt, s.w));
  }

  lemma Launched(s: State, i: nat, x: Entry)
    requires i < |s.runs| && s.runs[i].stage.Running?
    ensures NotAsked(s.Write(x), i) && NotAsked(Finish(s, i, Failed(TargetChanged)), i)
  {
  }

  lemma NoProbeYet(s: State, i: nat, mode: Mode, canWrite: bool)
    requires i < |s.runs|
    ensures NotAsked(Prepare(s, i, mode, canWrite), i)
  {
    hide Dispatch, End, NotAsked;
    NoProbe(s, i, mode, PromptOf(s.w), canWrite);
    NoneAsked(s, i, NotReady, Failed(TerminalClosed));
    NoneAsked(s, i, NotReady, Failed(Unsafe));
    NoneAsked(s, i, NotReady, Failed(TargetChanged));
    NoneAsked(s, i, NotReady, s.runs[i].AbortedOutcome());
    assert NotAsked(s.At(i, FinalClaim(mode, PromptOf(s.w))), i) by { NotProbing(s, i, FinalClaim(mode, PromptOf(s.w))); }
  }

  lemma NotProbing(s: State, i: nat, stage: Stage)
    requires i < |s.runs| && !stage.Probing?
    ensures NotAsked(s.At(i, stage), i)
  {
  }

  lemma OthersAsk(s: State, i: nat, e: RunEvent)
    requires i < |s.runs| && !s.runs[i].stage.Running? && !s.runs[i].stage.Probing?
    requires e.Resume? ==> !s.runs[i].stage.Waited? && !s.runs[i].stage.FinalClaimed?
    ensures NotAsked(PreflightStep(s, i, e), i)
  {
    hide Still;
  }

  /** The probe is typed in exactly the steps that Asks describes. */
  lemma ProbeTypedExactly(s: State, i: nat, e: RunEvent)
    requires i < |s.runs| && !s.runs[i].stage.Running? && !s.runs[i].stage.Probing?
    ensures if Asks(s, i, e) then Asked(s, PreflightStep(s, i, e), i) else NotAsked(PreflightStep(s, i, e), i)
  {
    hide Asked, NotAsked, Prepare, Dispatch, NoPrompt, SendProbe, End, AfterProbe, AfterProbeClaim, PromptTick, Untouched, Proven;
    var r := s.runs[i];
    if e.Resume? && r.stage.Waited? {
      if r.stage.goal.ForProbe? && r.stage.result.Ready? && s.w.remote == r.remote { SendAsks(s, i); }
      NoProbeYet(s, i, ModeOf(r.stage.goal), e.canWrite);
      NoProbeYet(RememberProof(s, r.remote), i, Sentinel, e.canWrite);
      NoneAsked(s, i, r.stage.result, Failed(TargetChanged));
      NoneAsked(s, i, r.stage.result, r.AbortedOutcome());
    } else if e.Resume? && r.stage.FinalClaimed? {
      NoProbe(s, i, r.stage.mode, r.stage.prompt, e.canWrite);
      NoneAsked(s, i, NotReady, Failed(TargetChanged));
      NoneAsked(s, i, NotReady, r.AbortedOutcome());
    } else {
      OthersAsk(s, i, e);
    }
  }

  // ------------------------------------------------------------ claims, waits and answers

  /** What a run waits for before it types: on a host a prompt for the probe, else one for the
      completion that its call asked for. */
  function FirstGoal(r: Run): Goal {
    if r.remote.Some? then ForProbe else if r.o.nonceCompletion then ForSentinel else ForIntegrated
  }

  /** A wait that starts now looks at once, prefers an empty prompt for a second and a half, and
      ends after the idle wait or with the run's time. */
  predicate Waits(r: Run, stage: Stage, goal: Goal, now: int) {
    && stage.Waiting? && stage.goal == goal && stage.tickAt == now && stage.graceUntil == now + 1_500
    && var left := r.startedAt + r.o.timeout - now;
       stage.deadline == now + if left < 0 || r.o.idleWait < 0 then 0 else if left < r.o.idleWait then left else r.o.idleWait
  }

  predicate Starts(r: Run, after: Run, goal: Goal, now: int) {
    Waits(r, after.stage, goal, now) && after == r.(authorized := after.authorized, stage := after.stage)
  }

  /** Once the claim for the probe is granted, the first wait starts. */
  lemma ClaimedWaits(s: State, i: nat, canWrite: bool)
    requires i < |s.runs| && s.runs[i].stage.ProbeClaimed?
    ensures var r, after := s.runs[i], Step(s, On(i, Resume(canWrite))).runs[i];
      if r.aborted.None? && s.w.remote == r.remote && r.stage.granted && (r.approved.Some? ==> Untouched(r.approved.value, s.w))
      then Starts(r, after, FirstGoal(r), s.now) && after.authorized
      else after.stage.Settled?
  {
    hide Still, Untouched, AfterWait, AfterFinalClaim, AfterProbe, PromptTick;
    if s.runs[i].approved.Some? { StillIsUntouched(s.runs[i].approved.value, s.w); }
  }

  /** Once the probe is answered and nobody has typed, the wait for the command's prompt starts. */
  lemma AnsweredWaits(s: State, i: nat, canWrite: bool)
    requires i < |s.runs| && s.runs[i].stage.Probed?
    ensures var r, after := s.runs[i], Step(s, On(i, Resume(canWrite))).runs[i];
      if r.aborted.None? && s.w.remote == r.remote && r.stage.answered && r.stage.keyboard.Some? && s.w.Keyboard() == r.stage.keyboard
      then Starts(r, after, ForCommand(r.stage.keyboard), s.now) && after.authorized == r.authorized
      else after.stage.Settled?
  {
    hide AfterWait, AfterFinalClaim, AfterProbeClaim, PromptTick, Wait, Starts;
    WaitStarts(s, i, ForCommand(s.runs[i].stage.keyboard));
  }

  lemma WaitStarts(s: State, i: nat, goal: Goal)
    requires i < |s.runs|
    ensures i < |Wait(s, i, goal).runs| && Starts(s.runs[i], Wait(s, i, goal).runs[i], goal, s.now)
    ensures Wait(s, i, goal).runs[i].authorized == s.runs[i].authorized
  {
  }

  predicate Claims(t: State, i: nat, mode: Mode, prompt: Prompt) { i < |t.runs| && t.runs[i].stage == FinalClaim(mode, prompt) }

  lemma NoneClaimed(s: State, i: nat, outcome: Outcome, stage: Stage, mode: Mode, prompt: Prompt)
    requires i < |s.runs|
    ensures !Claims(End(s, i, outcome), i, mode, prompt)
    ensures Claims(s.At(i, stage), i, mode, prompt) <==> stage == FinalClaim(mode, prompt)
    ensures forall x: Entry :: !stage.FinalClaim? ==> !Claims(s.At(i, stage).Write(x), i, mode, prompt)
  {
  }

  lemma NoPromptClaims(s: State, i: nat, result: Readiness, mode: Mode, prompt: Prompt)
    requires i < |s.runs|
    ensures !Claims(NoPrompt(s, i, result), i, mode, prompt)
  {
  }

  lemma SendClaims(s: State, i: nat, mode: Mode, prompt: Prompt)
    requires i < |s.runs|
    ensures !Claims(SendProbe(s, i), i, mode, prompt)
  {
    hide Claims, End, NoPrompt, Still, Usable;
    var r := s.runs[i];
    var s1 := Reusable(s, r.remote).1;
    NoPromptClaims(s1, i, NotReady, mode, prompt);
    NoneClaimed(s1, i, Failed(TargetChanged), Probed(s.w.Keyboard(), false), mode, prompt);
    NoneClaimed(s1, i, r.AbortedOutcome(),
                Probing(s.w.Keyboard(), s.now + Min(PROBE_WAIT_MS, r.DeadlineAt() - s.now)), mode, prompt);
  }

  lemma DispatchClaims(s: State, i: nat, m: Mode, p: Prompt, canWrite: bool, mode: Mode, prompt: Prompt)
    requires i < |s.runs|
    ensures !Claims(Dispatch(s, i, m, p, canWrite), i, mode, prompt)
  {
    hide PromptBound, NewJob, End;
    NoneClaimed(s, i, Failed(TerminalBusy), ProbeClaim, mode, prompt);
    NoneClaimed(s, i, Failed(TargetChanged), ProbeClaim, mode, prompt);
    NoneClaimed(s, i, s.runs[i].AbortedOutcome(), ProbeClaim, mode, prompt);
  }

  lemma PrepareClaims(s: State, i: nat, m: Mode, canWrite: bool, mode: Mode, prompt: Prompt)
    requires i < |s.runs|
    ensures var r, w := s.runs[i], s.w;
      Claims(Prepare(s, i, m, canWrite), i, mode, prompt) <==>
        && m == mode && prompt == PromptOf(w) && r.aborted.None? && w.entry.Some? && !w.disposed && r.o.fits
        && (m.Sentinel? ==> r.o.suffixable) && r.o.claims && !r.authorized && !Late(r, s.now)
  {
    hide Claims, Dispatch, End;
    var r := s.runs[i];
    DispatchClaims(s, i, m, PromptOf(s.w), canWrite, mode, prompt);
    NoneClaimed(s, i, Failed(TerminalClosed), FinalClaim(m, PromptOf(s.w)), mode, prompt);
    NoneClaimed(s, i, Failed(Unsafe), ProbeClaim, mode, prompt);
    NoneClaimed(s, i, Failed(TargetChanged), ProbeClaim, mode, prompt);
    NoneClaimed(s, i, r.AbortedOutcome(), ProbeClaim, mode, prompt);
  }

  /** The claim for the line is made exactly when its prompt is accepted, it still has to be
      claimed, and there is time left. */
  lemma ClaimsExactly(s: State, i: nat, canWrite: bool, mode: Mode, prompt: Prompt)
    requires i < |s.runs| && s.runs[i].stage.Waited?
    ensures Claims(AfterWait(s, i, canWrite), i, mode, prompt) <==>
      Accepts(s, i, mode) && prompt == PromptOf(s.w) && s.runs[i].o.claims && !s.runs[i].authorized && !Late(s.runs[i], s.now)
  {
    hide Claims, Prepare, SendProbe, NoPrompt, End, Late;
    var r := s.runs[i];
    NoPromptClaims(s, i, r.stage.result, mode, prompt);
    SendClaims(s, i, mode, prompt);
    NoneClaimed(s, i, Failed(TargetChanged), ProbeClaim, mode, prompt);
    NoneClaimed(s, i, r.AbortedOutcome(), ProbeClaim, mode, prompt);
    PrepareClaims(s, i, ModeOf(r.stage.goal), canWrite, mode, prompt);
    PrepareClaims(RememberProof(s, r.remote), i, Sentinel, canWrite, mode, prompt);
  }

  /** What a poll makes of a wait. */
  predicate Polled(r: Run, w: World, now: int, after: Stage)
    requires r.stage.Waiting?
  {
    var goal := r.stage.goal;
    var there := w.entry.Some? && !w.disposed && !w.exited;
    var seen := there && !w.alternate &&
      if goal.ForIntegrated? || goal.ForSentinel? then w.emptyPrompt || (w.promptColumn && now > r.stage.graceUntil)
      else now >= w.dataAt + 600 && now >= w.inputAt + 600 && w.cursorX > 0 && !w.blankRow;
    && (after == Waited(goal, Stopped) <==> r.aborted.Some?)
    && (after == Waited(goal, Gone) <==> r.aborted.None? && !there)
    && (after == Waited(goal, Ready) <==> r.aborted.None? && seen)
    && (after == Waited(goal, NotReady) <==> r.aborted.None? && there && !seen && now >= r.stage.deadline)
    && (after == r.stage.(tickAt := now + 100) <==> r.aborted.None? && there && !seen && now < r.stage.deadline)
  }

  /** Every tenth of a second a wait looks at the terminal, and ends at its deadline. */
  lemma PollExactly(s: State, i: nat)
    requires i < |s.runs| && s.runs[i].stage.Waiting?
    ensures var after := Step(s, On(i, Poll)).runs[i].stage;
      if s.now < s.runs[i].stage.tickAt then after == s.runs[i].stage else Polled(s.runs[i], s.w, s.now, after)
  {
    hide PromptTick, Polled;
    TickPolls(s, i);
  }

  lemma TickPolls(s: State, i: nat)
    requires i < |s.runs| && s.runs[i].stage.Waiting?
    ensures i < |PromptTick(s, i).runs|
    ensures var after := PromptTick(s, i).runs[i].stage;
      if s.now < s.runs[i].stage.tickAt then after == s.runs[i].stage else Polled(s.runs[i], s.w, s.now, after)
  {
  }

  /** Claims and probes are answered once, and only time makes them expire. */
  lemma AnswersLand(s: State, i: nat, granted: bool)
    requires i < |s.runs| && (s.runs[i].stage.ProbeClaim? || s.runs[i].stage.FinalClaim?)
    ensures var stage := s.runs[i].stage;
      var answered := (g: bool) => if stage.ProbeClaim? then ProbeClaimed(g) else FinalClaimed(stage.mode, stage.prompt, g);
      && Step(s, On(i, Claimed(granted))).runs[i].stage == answered(granted)
      && Step(s, On(i, ClaimExpired)).runs[i].stage == if Late(s.runs[i], s.now) then answered(false) else stage
  {
  }

  lemma ProbeLands(s: State, i: nat)
    requires i < |s.runs| && s.runs[i].stage.Probing?
    ensures var stage := s.runs[i].stage;
      && Step(s, On(i, ProbeAnswered)).runs[i].stage == Probed(stage.keyboard, true)
      && Step(s, On(i, ProbeLost)).runs[i].stage == Probed(stage.keyboard, false)
      && Step(s, On(i, ProbeExpired)).runs[i].stage == if s.now >= stage.deadline then Probed(stage.keyboard, false) else stage
  {
  }

  // ------------------------------------------------------------ calls that are not refused

  /** The new run owns the session, and claims the probe or waits for its prompt. */
  predicate Begun(s: State, o: Options, t: State, i: nat) {
    && i < |t.runs| && t.reservation == Some(o.approval)
    && var r := t.runs[i];
       && r.Owns() && r.startedAt == s.now && r.remote == s.w.remote && r.o == o
       && if o.nonceCompletion && s.w.remote.Some? then r.stage == ProbeClaim else Waits(r, r.stage, FirstGoal(r), s.now)
  }

  /** The new run has ended. */
  predicate TurnedDown(t: State, i: nat) { i < |t.runs| && t.runs[i].stage.Settled? }

  lemma Down(s: State, i: nat, outcome: Outcome)
    requires i < |s.runs|
    ensures TurnedDown(End(s, i, outcome), i)
  {
  }

  lemma ChooseBegins(s: State, s1: State, o: Options, i: nat, remote: Option<nat>, approved: Option<Prompt>)
    requires i < |s1.runs| && s1.runs[i] == Run(o, s.now, s.w.remote, true, false, None, approved, false, ProbeClaim)
    requires s1.now == s.now && s1.w == s.w && s1.reservation == Some(o.approval)
    ensures !(o.nonceCompletion && s.w.remote.Some?) ==> Begun(s, o, ChooseMode(s1, i), i)
    ensures o.nonceCompletion && s.w.remote.Some? ==> Begun(s, o, s1.At(i, ProbeClaim), i)
  {
  }

  lemma BeginGoes(s: State, o: Options, i: nat)
    requires i < |s.runs| && s.runs[i] == Run(o, s.now, s.w.remote, true, false, None, None, false, ProbeClaim)
    requires s.reservation == Some(o.approval)
    ensures
      if || (o.binding.Some? && !Approves(s, o))
         || (o.attested && s.w.remote.Some? && o.binding.None? && !Proven(s, s.w.remote))
         || (o.nonceCompletion && s.w.remote.Some? && (!o.claims || o.timeout <= 0))
      then TurnedDown(Begin(s, i), i)
      else Begun(s, o, Begin(s, i), i)
  {
    hide End, ChooseMode, Still, Untouched, Reusable, Begun, TurnedDown, Proven;
    var r := s.runs[i];
    var found := o.binding.Some? && o.binding.value in s.bindings;
    var s1 := if found then s.(bindings := s.bindings - {o.binding.value}) else s;
    var approved :=
      if found && s.bindings[o.binding.value].here && s.now - s.bindings[o.binding.value].capturedAt <= APPROVAL_PROMPT_TTL_MS
      then Some(s.bindings[o.binding.value].prompt) else None;
    if approved.Some? { StillIsUntouched(approved.value, s.w); }
    Down(s1, i, Failed(TargetChanged));
    var s2 := s1.(runs := s1.runs[i := r.(approved := approved)]);
    ReusableIs(s2, r.remote);
    SameProofs(s, s2, r.remote);
    var s3 := if o.attested && r.remote.Some? && approved.None? then Reusable(s2, r.remote).1 else s2;
    Down(s3, i, Failed(TerminalBusy));
    Down(s3, i, Failed(TargetChanged));
    ChooseBegins(s, s3, o, i, r.remote, approved);
  }

  lemma SameProofs(s: State, t: State, remote: Option<nat>)
    requires t.proof == s.proof && t.w == s.w && t.now == s.now
    ensures Proven(t, remote) <==> Proven(s, remote)
  {
  }

  /** A call is turned down at once exactly when there is a reason for it. */
  lemma CallExactly(s: State, o: Options)
    ensures if exists error :: CallReason(s, o, error) then TurnedDown(Start(s, o), |s.runs|)
            else Begun(s, o, Start(s, o), |s.runs|)
  {
    hide Begin, Start, Refused, Proven, Approves, Begun, TurnedDown;
    StartIs(s, o);
    RefusedDown(s, o);
    var s1 := s.(runs := s.runs + [Run(o, s.now, s.w.remote, true, false, None, None, false, ProbeClaim)],
                 reservation := Some(o.approval));
    BeginGoes(s1, o, |s.runs|);
    SameProof(s, s1, o);
    SameBegun(s, s1, o, Start(s, o), |s.runs|);
    assert CallReason(s, o, Unsafe) || CallReason(s, o, TerminalBusy) || CallReason(s, o, TerminalClosed)
      || CallReason(s, o, TargetChanged) || forall error :: !CallReason(s, o, error);
  }

  lemma RefusedDown(s: State, o: Options)
    ensures forall e :: TurnedDown(Refused(s, o, e), |s.runs|)
  {
  }

  lemma SameBegun(s: State, s1: State, o: Options, t: State, i: nat)
    requires s1.now == s.now && s1.w == s.w
    ensures Begun(s1, o, t, i) <==> Begun(s, o, t, i)
  {
  }

  // ------------------------------------------------------------ interrupts

  predicate Interrupting(job: Job) { job.pending || job.ladder.Some? || job.graceAt.Some? }

  /** The user's gesture on this command sends one SIGINT, and gives its delivery a second. */
  lemma GestureSends(s: State, i: nat)
    requires i < |s.runs| && s.runs[i].stage.Running?
    ensures var job, t := s.runs[i].stage.job, Step(s, On(i, Gesture(s.runs[i].o.approval, false)));
      if Interrupting(job) then t == s
      else
        && t.log == s.log + [Key(i, User)]
        && t.runs[i].stage == Running(job.(pending := true, cause := Some(User), gestureAt := Some(s.now),
                                           deliveryAt := Some(s.now + 1_000)))
  {
    hide TuiInterrupt, SigintAnswered, KeyAnswered, LadderStep, BlockStarted, Complete, TokenSeen, Refresh, Fire;
  }

  /** Once it is delivered, a completion that was kept back ends the run; else there is a second
      for one to come. */
  lemma DeliveryArms(s: State, i: nat)
    requires i < |s.runs| && s.runs[i].stage.Running? && s.runs[i].stage.job.pending && !s.runs[i].stage.job.confirmed
    ensures var job, after := s.runs[i].stage.job, Step(s, On(i, SigintReply(true))).runs[i].stage;
      if job.buffered.Some? then after.Settled? && after.outcome == job.buffered.value
      else after == Running(job.(confirmed := true, deliveryAt := None,
                                 graceAt := if job.graceAt.Some? then job.graceAt else Some(s.now + 1_000)))
  {
    hide UserInterrupt, TuiInterrupt, KeyAnswered, LadderStep, BlockStarted, Complete, TokenSeen, Refresh, Fire;
  }

  /** The alternate screen starts the ladder, once. */
  lemma ScreenSends(s: State, i: nat)
    requires i < |s.runs| && s.runs[i].stage.Running?
    ensures var job, t := s.runs[i].stage.job.(stall := Some(Hijacked)), Step(s, On(i, AlternateScreen));
      if Interrupting(job) then t.log == s.log && t.runs[i].stage == Running(job)
      else t.log == s.log + [Key(i, Tui)] && t.runs[i].stage == Running(job.(ladder := Some(Ladder(1, None)), cause := Some(Tui)))
  {
    hide UserInterrupt, SigintAnswered, KeyAnswered, LadderStep, BlockStarted, Complete, TokenSeen, Refresh, Fire;
  }

  /** A key that has been answered is given four tenths of a second. */
  lemma KeyWaits(s: State, i: nat)
    requires i < |s.runs| && s.runs[i].stage.Running? && s.runs[i].stage.job.ladder.Some?
    ensures var job, t := s.runs[i].stage.job, Step(s, On(i, KeyReply));
      if job.ladder.value.stepAt.Some? then t == s
      else t.log == s.log && t.runs[i].stage == Running(job.(ladder := Some(Ladder(job.ladder.value.keys, Some(s.now + 400)))))
  {
    hide UserInterrupt, TuiInterrupt, SigintAnswered, LadderStep, BlockStarted, Complete, TokenSeen, Refresh, Fire;
  }

  /** Then the next one goes in while the screen is still there, three in all, and else there is
      a second of grace. */
  lemma LadderClimbs(s: State, i: nat)
    requires i < |s.runs| && s.runs[i].stage.Running? && s.runs[i].stage.job.ladder.Some?
    ensures var job, t := s.runs[i].stage.job, Step(s, On(i, Rung)); var ladder := job.ladder.value;
      if !Past(ladder.stepAt, s.now) then t == s
      else if !OnAlternate(s.w) then
        && t.log == s.log
        && t.runs[i].stage == Running(job.(ladder := None, graceAt := if job.graceAt.Some? then job.graceAt else Some(s.now + 1_000)))
      else ladder.keys < 3 ==>
        t.log == s.log + [Key(i, Tui)] && t.runs[i].stage == Running(job.(ladder := Some(Ladder(ladder.keys + 1, None))))
  {
    hide UserInterrupt, TuiInterrupt, SigintAnswered, KeyAnswered, BlockStarted, Complete, TokenSeen, Refresh, Fire;
  }

  // ------------------------------------------------------------ aborts

  /** An aborted run: its claims are refused and its probe is lost, whatever the answers will be. */
  predicate StoppedAs(r: Run, after: Run, reason: AbortReason) {
    && after == r.(aborted := Some(reason), stage := after.stage)
    && match r.stage
       case ProbeClaim => after.stage == ProbeClaimed(false)
       case FinalClaim(mode, prompt) => after.stage == FinalClaimed(mode, prompt, false)
       case Probing(keyboard, _) => after.stage == Probed(keyboard, false)
       case _ => after.stage == r.stage
  }

  /** While no job is live, an abort that names the reservation, or names nothing, stops the run
      that owns it, and does nothing else. */
  lemma AbortStops(s: State, reason: AbortReason, expected: Option<nat>)
    requires s.job.Some? ==> s.job.value >= |s.runs|
    ensures var t := AbortSession(s, reason, expected);
      if s.reservation.None? || (expected.Some? && expected != s.reservation) then t == s
      else
        && t == s.(runs := t.runs) && |t.runs| == |s.runs|
        && forall k :: 0 <= k < |s.runs| ==> Aborts(s.runs[k], t.runs[k], reason)
  {
    hide Aborts;
    forall r: Run ensures Aborts(r, if r.Owns() then AbortRun(r, reason) else r, reason) { AbortsRun(r, reason); }
  }

  predicate Aborts(r: Run, after: Run, reason: AbortReason) {
    if r.reserved && !r.released && r.aborted.None? then StoppedAs(r, after, reason) else after == r
  }

  lemma AbortsRun(r: Run, reason: AbortReason)
    ensures Aborts(r, if r.Owns() then AbortRun(r, reason) else r, reason)
  {
  }

  // ------------------------------------------------------------ proofs and bindings

  /** A prompt that follows an answered probe proves the shell, as of now. */
  lemma PromptProves(s: State, i: nat)
    requires i < |s.runs| && s.runs[i].stage == Waited(ForCommand(s.w.Keyboard()), Ready) && s.w.remote == s.runs[i].remote
    ensures Step(s, On(i, Resume(true))).proof ==
      if s.w.entry.Some? && !s.w.disposed then Some(Proof((s.w.entry.value, s.w.inputAt), s.runs[i].remote, s.now)) else s.proof
  {
    hide Dispatch;
    DispatchProves(RememberProof(s, s.runs[i].remote), i, PromptOf(s.w));
  }

  lemma DispatchProves(s: State, i: nat, prompt: Prompt)
    requires i < |s.runs|
    ensures Dispatch(s, i, Sentinel, prompt, true).proof == s.proof
  {
    hide PromptBound, NewJob;
  }

  /** A probe that is not answered leaves nothing proved. */
  lemma LossForgets(s: State, i: nat, canWrite: bool)
    requires i < |s.runs| && s.runs[i].stage.Probed? && !s.runs[i].stage.answered && s.runs[i].aborted.None?
    ensures Step(s, On(i, Resume(canWrite))).proof.None?
  {
    hide AfterWait, AfterFinalClaim, AfterProbeClaim, Wait;
  }

  /** Before a probe is typed, a proof that cannot be relied on is forgotten. */
  lemma ProbeForgets(s: State, i: nat)
    requires i < |s.runs|
    ensures SendProbe(s, i).proof == if Proven(s, s.runs[i].remote) then s.proof else None
  {
    hide Still, Reusable, Proven;
    ReusableIs(s, s.runs[i].remote);
  }

  /** What can be attested is captured as it is now, and a binding lasts until it is released. */
  lemma Bindings(s: State, token: nat, here: bool)
    ensures var w, t := s.w, Step(s, Capture(token, here));
      if w.entry.Some? && !w.disposed && !w.alternate && w.cursorX > 0 && !w.blankRow
      then t == s.(bindings := s.bindings[token := Binding(Prompt(w.entry, w.alternate, w.row, w.cursorX, w.dataAt, w.inputAt), here, s.now)])
      else t == s
    ensures Step(s, Release(token)) == s.(bindings := s.bindings - {token})
    ensures Step(s, ForgetProof) == s.(proof := None)
  {
  }
}
