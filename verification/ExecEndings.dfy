/** What every error of src/lib/ptyExec.ts stands for: why a run that reports one was
    ended, told from the terminal and the run as they were at that moment. */
module ExecEndings {
  import opened Basics
  import opened ExecModel
  import opened ExecHistory
  import ExecSafety

  predicate Past(at: Option<int>, now: int) { at.Some? && at.value <= now }

  predicate OnAlternate(w: World) { w.entry.Some? && w.alternate }

  /** The run ends here with this error and without an exit code. */
  predicate EndsWith(before: Stage, after: Stage, error: Error) {
    !before.Settled? && after.Settled? && after.outcome.exit.None? && after.outcome.error == Some(error)
  }

  predicate EndsIn(before: Stage, t: State, i: nat, error: Error) { i < |t.runs| && EndsWith(before, t.runs[i].stage, error) }

  // ------------------------------------------------------------ a live job

  /** Why a live job ends with an error. */
  predicate LiveReason(s: State, i: nat, e: RunEvent, error: Error)
    requires i < |s.runs| && s.runs[i].stage.Running?
  {
    var r, job := s.runs[i], s.runs[i].stage.job;
    match error
    case Timeout =>
      || (e == Alarm(DeadlineTimer) && Past(job.deadlineAt, s.now) && job.cause.None?
          && s.now - r.startedAt - job.paused >= r.o.timeout)
      || (e == Alarm(CapTimer) && s.now >= job.capAt && job.cause.None?)
    case NotObserved =>
      || (e == Alarm(BindTimer) && Past(job.bindAt, s.now) && job.bound.None? && job.cause.None?)
      || (e.Started? && !e.ours && job.mode.Integrated? && job.bound.None? && job.foreign >= 1)
    case Interrupted =>
      || (e == Alarm(GraceTimer) && Past(job.graceAt, s.now))
      || (e == Alarm(CapTimer) && s.now >= job.capAt && job.cause == Some(User) && job.confirmed)
    case InterruptFailed =>
      || (e.Gesture? && e.approval == r.o.approval && e.thrown && !job.pending && job.ladder.None? && job.graceAt.None?)
      || (e == SigintReply(false) && job.pending && !job.confirmed)
      || (e == Alarm(DeliveryTimer) && Past(job.deliveryAt, s.now) && !job.confirmed)
      || (e == Rung && job.ladder.Some? && Past(job.ladder.value.stepAt, s.now) && OnAlternate(s.w) && job.ladder.value.keys >= 3)
      || (e == Alarm(CapTimer) && s.now >= job.capAt && job.cause.Some? && (job.cause == Some(Tui) || !job.confirmed))
    case TerminalClosed => e == LineRefused || e == Disposed
    case _ => false
  }

  lemma Finishes(s: State, i: nat, job: Job, outcome: Outcome, error: Error)
    requires i < |s.runs| && s.runs[i].stage.Running?
    ensures EndsIn(s.runs[i].stage, Finish(s, i, outcome), i, error)
      <==> outcome.exit.None? && outcome.error == Some(error)
    ensures EndsIn(s.runs[i].stage, Finish(Update(s, i, job), i, outcome), i, error)
      <==> outcome.exit.None? && outcome.error == Some(error)
    ensures !EndsIn(s.runs[i].stage, s, i, error)
    ensures !EndsIn(s.runs[i].stage, Update(s, i, job), i, error)
    ensures forall x: Entry :: !EndsIn(s.runs[i].stage, Update(s, i, job).Write(x), i, error)
    ensures Update(s, i, job).runs[i].stage == Running(job)
  {
  }

  lemma TimersEnd(s: State, i: nat, timer: Timer, error: Error)
    requires i < |s.runs| && s.runs[i].stage.Running?
    ensures EndsIn(s.runs[i].stage, Fire(s, i, timer), i, error) <==> LiveReason(s, i, Alarm(timer), error)
  {
    hide EndsWith, EndsIn, Finish, Update;
    var r, job := s.runs[i], s.runs[i].stage.job;
    match timer
    case BindTimer => Finishes(s, i, job.(bindAt := None), Failed(NotObserved), error);
    case DeliveryTimer => Finishes(s, i, job.(deliveryAt := None), Failed(InterruptFailed), error);
    case GraceTimer => Finishes(s, i, job, Failed(Interrupted), error);
    case DeadlineTimer =>
      Finishes(s, i, job.(deadlineAt := None), Failed(Timeout), error);
      var left := r.o.timeout - (s.now - r.startedAt - job.paused);
      Finishes(s, i, job.(deadlineAt := Some(s.now + left)), Failed(Timeout), error);
    case CapTimer =>
      Finishes(s, i, job, Failed(Timeout), error);
      Finishes(s, i, job, Failed(Interrupted), error);
      Finishes(s, i, job, Failed(InterruptFailed), error);
  }

  lemma KeysEnd(s: State, i: nat, approval: nat, thrown: bool, delivered: bool, error: Error)
    requires i < |s.runs| && s.runs[i].stage.Running?
    requires s.runs[i].stage.job.buffered.Some? ==> s.runs[i].stage.job.buffered.value.exit.Some?
    ensures EndsIn(s.runs[i].stage, (if approval == s.runs[i].o.approval then UserInterrupt(s, i, thrown) else s), i, error)
      <==> LiveReason(s, i, Gesture(approval, thrown), error)
    ensures EndsIn(s.runs[i].stage, SigintAnswered(s, i, delivered), i, error)
      <==> LiveReason(s, i, SigintReply(delivered), error)
  {
    hide EndsWith, EndsIn, Finish, Update, ArmGrace;
    var job := s.runs[i].stage.job;
    var asked := job.(pending := true, cause := Some(User), gestureAt := Some(s.now));
    Finishes(s, i, asked, Failed(InterruptFailed), error);
    Finishes(s, i, asked.(deliveryAt := Some(s.now + USER_INTERRUPT_DELIVERY_TIMEOUT_MS)), Failed(InterruptFailed), error);
    var known := job.(confirmed := true, deliveryAt := None);
    if known.buffered.Some? { Finishes(s, i, known.(buffered := None), known.buffered.value, error); }
    Finishes(s, i, ArmGrace(known, s.now), Failed(InterruptFailed), error);
  }

  lemma LadderEnds(s: State, i: nat, error: Error)
    requires i < |s.runs| && s.runs[i].stage.Running?
    ensures EndsIn(s.runs[i].stage, LadderStep(s, i), i, error) <==> LiveReason(s, i, Rung, error)
    ensures !EndsIn(s.runs[i].stage, KeyAnswered(s, i), i, error) && !LiveReason(s, i, KeyReply, error)
  {
    hide EndsWith, EndsIn, Finish, Update, ArmGrace;
    var job := s.runs[i].stage.job;
    Finishes(s, i, ArmGrace(job.(ladder := None), s.now), Failed(InterruptFailed), error);
    if job.ladder.Some? {
      Finishes(s, i, job.(ladder := Some(Ladder(job.ladder.value.keys + 1, None))), Failed(InterruptFailed), error);
      Finishes(s, i, job.(ladder := Some(job.ladder.value.(stepAt := Some(s.now + LADDER_STEP_MS)))), Failed(InterruptFailed), error);
    }
  }

  lemma StartsEnd(s: State, i: nat, block: nat, ours: bool, error: Error)
    requires i < |s.runs| && s.runs[i].stage.Running?
    ensures EndsIn(s.runs[i].stage, BlockStarted(s, i, block, ours), i, error)
      <==> LiveReason(s, i, Started(block, ours), error)
  {
  }

  lemma CompletionsEnd(s: State, i: nat, exit: int, mine: bool, error: Error)
    requires i < |s.runs| && s.runs[i].stage.Running?
    ensures !EndsIn(s.runs[i].stage, Complete(s, i, exit), i, error)
    ensures !EndsIn(s.runs[i].stage, TokenSeen(s, i, exit, mine), i, error)
  {
  }

  lemma ScreensEnd(s: State, i: nat, job: Job, error: Error)
    requires i < |s.runs| && s.runs[i].stage.Running?
    ensures !EndsIn(s.runs[i].stage, TuiInterrupt(Update(s, i, job), i), i, error)
    ensures !EndsIn(s.runs[i].stage, Refresh(s, i), i, error)
  {
  }

  lemma ClosedEnds(s: State, i: nat, error: Error)
    requires i < |s.runs| && s.runs[i].stage.Running?
    ensures EndsIn(s.runs[i].stage, Finish(s, i, Failed(TerminalClosed)), i, error) <==> error == TerminalClosed
  {
  }

  /** A live job ends with an error exactly when the table says so. */
  lemma LiveEnds(s: State, i: nat, e: RunEvent, error: Error)
    requires i < |s.runs| && s.runs[i].stage.Running?
    requires s.runs[i].stage.job.buffered.Some? ==> s.runs[i].stage.job.buffered.value.exit.Some?
    ensures EndsIn(s.runs[i].stage, JobStep(s, i, e), i, error) <==> LiveReason(s, i, e, error)
  {
    hide EndsWith, EndsIn, Fire, UserInterrupt, SigintAnswered, LadderStep, KeyAnswered, BlockStarted, Complete, TokenSeen, TuiInterrupt, Refresh, Finish;
    match e
    case Gesture(approval, thrown) => KeysEnd(s, i, approval, thrown, false, error);
    case SigintReply(delivered) => KeysEnd(s, i, 0, false, delivered, error);
    case LineRefused => ClosedEnds(s, i, error);
    case KeyReply => LadderEnds(s, i, error);
    case Rung => LadderEnds(s, i, error);
    case Disposed => ClosedEnds(s, i, error);
    case Started(block, ours) => StartsEnd(s, i, block, ours, error);
    case Ended(_, exit) =>
      CompletionsEnd(s, i, exit, false, error);
      NotEnded(s, i, error);
    case Token(exit, mine) => CompletionsEnd(s, i, exit, mine, error);
    case AlternateScreen => ScreensEnd(s, i, s.runs[i].stage.job.(stall := Some(Hijacked)), error);
    case Beat => ScreensEnd(s, i, s.runs[i].stage.job, error);
    case Alarm(timer) => TimersEnd(s, i, timer, error);
    case _ => NotEnded(s, i, error);
  }

  lemma NotEnded(s: State, i: nat, error: Error)
    requires i < |s.runs| && s.runs[i].stage.Running?
    ensures !EndsIn(s.runs[i].stage, s, i, error)
  {
  }

  // ------------------------------------------------------------ before the line is typed

  predicate Late(r: Run, now: int) { r.startedAt + r.o.timeout <= now }

  /** A shell proof that may still be relied on: same keyboard, same host, not too old. */
  predicate Proven(s: State, remote: Option<nat>) {
    && s.proof.Some? && s.w.entry.Some? && !s.w.disposed && s.proof.value.remote == remote
    && s.proof.value.keyboard == (s.w.entry.value, s.w.inputAt) && s.now - s.proof.value.provenAt <= 300_000
  }

  /** What the operator approved is no longer there: on a host only the terminal and the
      keyboard have to be the same, and the screen normal. */
  predicate EpochGone(r: Run, w: World) {
    r.approved.Some? &&
      if r.remote.Some? then
        !(w.entry.Some? && !w.disposed && w.entry == r.approved.value.entry && !w.alternate && !r.approved.value.alternate
          && w.inputAt == r.approved.value.inputAt)
      else !Untouched(r.approved.value, w)
  }

  predicate NoShellPrompt(mode: Mode, w: World) { mode.Integrated? && !w.emptyPrompt && !w.promptColumn }

  predicate LocalWithoutIntegration(r: Run, w: World) {
    r.remote.None? && w.remote.None? && w.entry.Some? && !w.alternate && !w.integration
  }

  /** Why a run that has typed no line ends with an error when what it awaited is answered. */
  predicate PreReason(s: State, i: nat, canWrite: bool, error: Error)
    requires i < |s.runs|
  {
    var r, w := s.runs[i], s.w;
    var stage := r.stage;
    var ready := stage.Waited? && stage.result.Ready?;
    match error
    case Cancelled => (r.aborted.Some? && r.aborted != Some(Close)) || (r.aborted.None? && stage.Waited? && stage.result.Stopped?)
    case TerminalClosed =>
      || r.aborted == Some(Close) || !w.Live() || (stage.Waited? && stage.result.Gone?)
      || (stage.Probed? && !stage.answered && w.exited)
    case Unsafe => r.aborted.None? && ready && (!r.o.fits || (!r.o.suffixable && !stage.goal.ForIntegrated?))
    case IntegrationUnavailable =>
      r.aborted.None? && stage.Waited? && (stage.result.NotReady? || stage.goal.ForProbe?) && LocalWithoutIntegration(r, w)
    case TerminalBusy =>
      && r.aborted.None?
      && (|| Late(r, s.now)
          || (stage.Waited? && stage.result.NotReady? && !LocalWithoutIntegration(r, w))
          || (ready && stage.goal.ForProbe? && r.o.attested && r.approved.None? && !Proven(s, r.remote)))
    case ShellProbeFailed =>
      r.aborted.None? && stage.Probed? && !stage.answered && w.Live() && !w.exited && w.remote == r.remote && w.Keyboard() == stage.keyboard
    case TargetChanged =>
      && r.aborted.None?
      && (|| w.remote != r.remote || !canWrite
          || (stage.ProbeClaimed? && !stage.granted)
          || ((stage.ProbeClaimed? || (ready && stage.goal.ForProbe?)) && r.approved.Some? && !Untouched(r.approved.value, w))
          || (stage.Probed? && (stage.keyboard.None? || w.Keyboard() != stage.keyboard))
          || (stage.FinalClaimed? && (!stage.granted || !Untouched(stage.prompt, w) || NoShellPrompt(stage.mode, w)))
          || ((stage.FinalClaimed? || ready) && EpochGone(r, w))
          || (ready && (w.alternate || (stage.goal.ForIntegrated? && NoShellPrompt(Integrated, w))
                        || (stage.goal.ForCommand? && w.Keyboard() != stage.goal.keyboard)
                        || (r.o.claims && !r.authorized && Late(r, s.now)))))
    case _ => false
  }

  lemma Ended(s: State, i: nat, outcome: Outcome, before: Stage, error: Error)
    requires i < |s.runs|
    ensures EndsIn(before, End(s, i, outcome), i, error) ==> outcome.exit.None? && outcome.error == Some(error)
  {
  }

  lemma Awaits(s: State, i: nat, goal: Goal, stage: Stage, before: Stage, error: Error)
    requires i < |s.runs| && !stage.Settled?
    ensures !EndsIn(before, Wait(s, i, goal), i, error) && !EndsIn(before, s.At(i, stage), i, error)
    ensures forall x: Entry :: !EndsIn(before, s.At(i, stage).Write(x), i, error)
  {
  }

  lemma ChooseEnds(s: State, i: nat, before: Stage, error: Error)
    requires i < |s.runs|
    ensures EndsIn(before, ChooseMode(s, i), i, error) ==> error == TargetChanged && s.w.remote != s.runs[i].remote
  {
    hide EndsWith, EndsIn, End, Wait;
    var r := s.runs[i];
    Ended(s, i, Failed(TargetChanged), before, error);
    var goal := if r.remote.Some? then ForProbe else if r.o.nonceCompletion then ForSentinel else ForIntegrated;
    Awaits(s, i, goal, ProbeClaim, before, error);
  }

  /** The outcome of an aborted run. */
  predicate AbortedWith(r: Run, error: Error) {
    (r.aborted == Some(Close) && error == TerminalClosed) || (r.aborted != Some(Close) && error == Cancelled)
  }

  lemma AbortedEnds(s: State, i: nat, before: Stage, error: Error)
    requires i < |s.runs|
    ensures EndsIn(before, End(s, i, s.runs[i].AbortedOutcome()), i, error) ==> AbortedWith(s.runs[i], error)
  {
  }

  lemma NoPromptEnds(s: State, i: nat, result: Readiness, before: Stage, error: Error)
    requires i < |s.runs|
    ensures EndsIn(before, NoPrompt(s, i, result), i, error) ==>
      var r := s.runs[i];
      || ((r.aborted.Some? || result.Stopped?) && AbortedWith(r, error))
      || (r.aborted.None? && result.Gone? && error == TerminalClosed)
      || (r.aborted.None? && !result.Gone? && !result.Stopped?
          && error == if LocalWithoutIntegration(r, s.w) then IntegrationUnavailable else TerminalBusy)
  {
    hide EndsWith, EndsIn, End;
    AbortedEnds(s, i, before, error);
    Ended(s, i, Failed(TerminalClosed), before, error);
    Ended(s, i, Failed(IntegrationUnavailable), before, error);
    Ended(s, i, Failed(TerminalBusy), before, error);
  }

  lemma DispatchEnds(s: State, i: nat, mode: Mode, prompt: Prompt, canWrite: bool, before: Stage, error: Error)
    requires i < |s.runs| && s.runs[i].aborted.None?
    ensures EndsIn(before, Dispatch(s, i, mode, prompt, canWrite), i, error) ==>
      var r := s.runs[i];
      || (error == TerminalBusy && Late(r, s.now))
      || (error == TargetChanged && (s.w.remote != r.remote || EpochGone(r, s.w) || !Untouched(prompt, s.w) || NoShellPrompt(mode, s.w)))
      || (error == TargetChanged && !canWrite)
  {
    hide EndsWith, EndsIn, End, Finish, NewJob;
    var r := s.runs[i];
    Ended(s, i, Failed(TerminalBusy), before, error);
    Ended(s, i, Failed(TargetChanged), before, error);
    BoundIs(r, mode, prompt, s.w);
    var job := NewJob(r, mode, s.now);
    var live := s.At(i, Running(job)).(job := Some(i));
    WritesOrNot(live, i, job, before, error, Line(i, mode, prompt, s.w));
  }

  lemma BoundIs(r: Run, mode: Mode, prompt: Prompt, w: World)
    ensures PromptBound(r, mode, prompt, w) <==>
      !(w.remote != r.remote || EpochGone(r, w) || !Untouched(prompt, w) || NoShellPrompt(mode, w))
  {
    StillIsUntouched(prompt, w);
    if r.approved.Some? { StillIsUntouched(r.approved.value, w); }
  }

  lemma WritesOrNot(s: State, i: nat, job: Job, before: Stage, error: Error, x: Entry)
    requires i < |s.runs| && s.runs[i].stage == Running(job)
    ensures !EndsIn(before, s.Write(x), i, error)
    ensures EndsIn(before, Finish(s, i, Failed(TargetChanged)), i, error) ==> error == TargetChanged
  {
  }

  lemma PrepareEnds(s: State, i: nat, mode: Mode, canWrite: bool, before: Stage, error: Error)
    requires i < |s.runs|
    ensures EndsIn(before, Prepare(s, i, mode, canWrite), i, error) ==>
      var r, w := s.runs[i], s.w;
      || (r.aborted.Some? && AbortedWith(r, error))
      || (r.aborted.None? && error == TerminalClosed && !w.Live())
      || (r.aborted.None? && error == Unsafe && (!r.o.fits || (mode.Sentinel? && !r.o.suffixable)))
      || (r.aborted.None? && error == TerminalBusy && Late(r, s.now))
      || (r.aborted.None? && error == TargetChanged
          && (w.remote != r.remote || EpochGone(r, w) || w.alternate || NoShellPrompt(mode, w) || !canWrite
              || (r.o.claims && !r.authorized && Late(r, s.now))))
  {
    hide EndsWith, EndsIn, End, Dispatch;
    AbortedEnds(s, i, before, error);
    Ended(s, i, Failed(TerminalClosed), before, error);
    Ended(s, i, Failed(Unsafe), before, error);
    Ended(s, i, Failed(TargetChanged), before, error);
    Awaits(s, i, ForProbe, FinalClaim(mode, PromptOf(s.w)), before, error);
    if s.runs[i].aborted.None? { DispatchEnds(s, i, mode, PromptOf(s.w), canWrite, before, error); }
  }

  lemma EndUnlessEnds(s: State, i: nat, before: Stage, error: Error)
    requires i < |s.runs|
    ensures EndsIn(before, EndUnlessAborted(s, i, Failed(TargetChanged)), i, error) ==>
      (s.runs[i].aborted.Some? && AbortedWith(s.runs[i], error)) || (s.runs[i].aborted.None? && error == TargetChanged)
  {
    hide EndsWith, EndsIn, End;
    AbortedEnds(s, i, before, error);
    Ended(s, i, Failed(TargetChanged), before, error);
  }

  lemma ReusableIs(s: State, remote: Option<nat>)
    ensures Reusable(s, remote).0 <==> Proven(s, remote)
    ensures Reusable(s, remote).1 == if Proven(s, remote) then s else s.(proof := None)
  {
  }

  lemma SendProbeEnds(s: State, i: nat, before: Stage, error: Error)
    requires i < |s.runs|
    ensures EndsIn(before, SendProbe(s, i), i, error) ==>
      var r, w := s.runs[i], s.w;
      || (r.aborted.Some? && AbortedWith(r, error))
      || (r.aborted.None? && error == TargetChanged && r.approved.Some? && !Untouched(r.approved.value, w))
      || (r.aborted.None? && error == IntegrationUnavailable && LocalWithoutIntegration(r, w))
      || (r.aborted.None? && error == TerminalBusy
          && (Late(r, s.now) || (r.o.attested && r.approved.None? && !Proven(s, r.remote))))
  {
    hide EndsWith, EndsIn, NoPrompt, EndUnlessAborted, Reusable, Still;
    var r := s.runs[i];
    ReusableIs(s, r.remote);
    var s1 := Reusable(s, r.remote).1;
    NoPromptEnds(s1, i, NotReady, before, error);
    EndUnlessEnds(s1, i, before, error);
    if r.approved.Some? { StillIsUntouched(r.approved.value, s.w); }
    Awaits(s1, i, ForProbe, Probed(s.w.Keyboard(), false), before, error);
    Awaits(s1, i, ForProbe, Probing(s.w.Keyboard(), s.now + Min(PROBE_WAIT_MS, r.DeadlineAt() - s.now)), before, error);
  }

  lemma WaitEnds(s: State, i: nat, canWrite: bool, error: Error)
    requires i < |s.runs| && s.runs[i].stage.Waited?
    ensures EndsIn(s.runs[i].stage, AfterWait(s, i, canWrite), i, error) ==> PreReason(s, i, canWrite, error)
  {
    hide EndsWith, EndsIn, NoPrompt, EndUnlessAborted, Prepare, SendProbe, LocalWithoutIntegration, EpochGone, Untouched, Proven, Late;
    var before, goal := s.runs[i].stage, s.runs[i].stage.goal;
    NoPromptEnds(s, i, s.runs[i].stage.result, before, error);
    EndUnlessEnds(s, i, before, error);
    match goal
    case ForIntegrated => PrepareEnds(s, i, Integrated, canWrite, before, error);
    case ForSentinel => PrepareEnds(s, i, Sentinel, canWrite, before, error);
    case ForProbe => SendProbeEnds(s, i, before, error);
    case ForCommand(_) => PrepareEnds(RememberProof(s, s.runs[i].remote), i, Sentinel, canWrite, before, error);
  }

  lemma ProbeEnds(s: State, i: nat, error: Error)
    requires i < |s.runs|
    ensures s.runs[i].stage.Probed? && EndsIn(s.runs[i].stage, AfterProbe(s, i), i, error) ==> PreReason(s, i, true, error)
    ensures s.runs[i].stage.ProbeClaimed? && EndsIn(s.runs[i].stage, AfterProbeClaim(s, i), i, error) ==>
      PreReason(s, i, true, error)
  {
    hide EndsWith, EndsIn, End, ChooseMode, Wait, Untouched, Still;
    var r, before := s.runs[i], s.runs[i].stage;
    AbortedEnds(s, i, before, error);
    Ended(s, i, Failed(TargetChanged), before, error);
    if r.approved.Some? { StillIsUntouched(r.approved.value, s.w); }
    if before.Probed? {
      var s1 := s.(proof := None);
      Ended(s1, i, Failed(TerminalClosed), before, error);
      Ended(s1, i, Failed(TargetChanged), before, error);
      Ended(s1, i, Failed(ShellProbeFailed), before, error);
      Awaits(s, i, ForCommand(before.keyboard), ProbeClaim, before, error);
    } else {
      ChooseEnds(s.(runs := s.runs[i := r.(authorized := true)]), i, before, error);
    }
  }

  lemma FinalEnds(s: State, i: nat, canWrite: bool, error: Error)
    requires i < |s.runs| && s.runs[i].stage.FinalClaimed?
    ensures EndsIn(s.runs[i].stage, AfterFinalClaim(s, i, canWrite), i, error) ==> PreReason(s, i, canWrite, error)
  {
    hide EndsWith, EndsIn, End, Dispatch, EpochGone, Untouched;
    var r, before := s.runs[i], s.runs[i].stage;
    AbortedEnds(s, i, before, error);
    Ended(s, i, Failed(TargetChanged), before, error);
    if r.aborted.None? { DispatchEnds(s, i, before.mode, before.prompt, canWrite, before, error); }
  }

  /** Before the line is typed a run ends only when what it awaited is answered, and the
      error it reports is the reason. */
  lemma PreflightEnds(s: State, i: nat, e: RunEvent, error: Error)
    requires i < |s.runs| && !s.runs[i].stage.Running?
    requires EndsIn(s.runs[i].stage, PreflightStep(s, i, e), i, error)
    ensures e.Resume? && PreReason(s, i, e.canWrite, error)
  {
    hide AfterWait, AfterProbe, AfterProbeClaim, AfterFinalClaim, PreReason;
    if e.Resume? {
      match s.runs[i].stage
      case Waited(_, _) => WaitEnds(s, i, e.canWrite, error);
      case Probed(_, _) =>
        ProbeEnds(s, i, error);
        AnyWrite(s, i, e.canWrite, error);
      case ProbeClaimed(_) =>
        ProbeEnds(s, i, error);
        AnyWrite(s, i, e.canWrite, error);
      case FinalClaimed(_, _, _) => FinalEnds(s, i, e.canWrite, error);
      case _ =>
    }
  }

  lemma AnyWrite(s: State, i: nat, canWrite: bool, error: Error)
    requires i < |s.runs| && PreReason(s, i, true, error)
    ensures PreReason(s, i, canWrite, error)
  {
  }

  // ------------------------------------------------------------ calls and aborts

  /** The approval that a call names still holds: taken here, at most thirty seconds old, and
      the terminal as it was. */
  predicate Approves(s: State, o: Options) {
    && o.binding.Some? && o.binding.value in s.bindings
    && var b := s.bindings[o.binding.value];
       b.here && s.now - b.capturedAt <= 30_000 && Untouched(b.prompt, s.w)
  }

  /** Why a call is refused at once. */
  predicate CallReason(s: State, o: Options, error: Error) {
    match error
    case Unsafe =>
      || !o.sane
      || (s.job.None? && s.reservation.None? && s.w.Live() && (s.w.remote.Some? || o.nonceCompletion) && !o.suffixable)
    case TerminalBusy =>
      o.sane && (s.job.Some? || s.reservation.Some? || (o.attested && s.w.remote.Some? && o.binding.None? && !Proven(s, s.w.remote)))
    case TerminalClosed => o.sane && s.job.None? && s.reservation.None? && !s.w.Live()
    case TargetChanged =>
      && o.sane && s.job.None? && s.reservation.None? && s.w.Live()
      && ((o.binding.Some? && !Approves(s, o)) || (o.nonceCompletion && s.w.remote.Some? && (!o.claims || o.timeout <= 0)))
    case _ => false
  }

  lemma BeginEnds(s: State, o: Options, i: nat, before: Stage, error: Error)
    requires i < |s.runs| && s.runs[i] == Run(o, s.now, s.w.remote, true, false, None, None, false, ProbeClaim)
    ensures EndsIn(before, Begin(s, i), i, error) ==>
      || (error == TargetChanged && ((o.binding.Some? && !Approves(s, o)) || (o.nonceCompletion && s.w.remote.Some? && (!o.claims || o.timeout <= 0))))
      || (error == TerminalBusy && o.attested && s.w.remote.Some? && o.binding.None? && !Proven(s, s.w.remote))
  {
    hide EndsWith, EndsIn, End, ChooseMode, Still, Untouched, Reusable;
    var r := s.runs[i];
    var found := o.binding.Some? && o.binding.value in s.bindings;
    var s1 := if found then s.(bindings := s.bindings - {o.binding.value}) else s;
    var approved :=
      if found && s.bindings[o.binding.value].here && s.now - s.bindings[o.binding.value].capturedAt <= APPROVAL_PROMPT_TTL_MS
      then Some(s.bindings[o.binding.value].prompt) else None;
    if approved.Some? { StillIsUntouched(approved.value, s.w); }
    Ended(s1, i, Failed(TargetChanged), before, error);
    var s2 := s1.(runs := s1.runs[i := r.(approved := approved)]);
    ReusableIs(s2, r.remote);
    var s3 := if o.attested && r.remote.Some? && approved.None? then Reusable(s2, r.remote).1 else s2;
    Ended(s3, i, Failed(TerminalBusy), before, error);
    Ended(s3, i, Failed(TargetChanged), before, error);
    ChooseEnds(s3, i, before, error);
    Awaits(s3, i, ForProbe, ProbeClaim, before, error);
  }

  function Refused(s: State, o: Options, e: Error): State {
    s.(runs := s.runs + [Run(o, s.now, s.w.remote, false, false, None, None, false, Settled(Failed(e), None))])
  }

  lemma RefusedEnds(s: State, o: Options, e: Error, error: Error)
    ensures EndsIn(ProbeClaim, Refused(s, o, e), |s.runs|, error) ==> error == e
  {
  }

  lemma StartIs(s: State, o: Options)
    ensures Start(s, o) ==
      if !o.sane then Refused(s, o, Unsafe)
      else if s.job.Some? || s.reservation.Some? then Refused(s, o, TerminalBusy)
      else if !s.w.Live() then Refused(s, o, TerminalClosed)
      else if (s.w.remote.Some? || o.nonceCompletion) && !o.suffixable then Refused(s, o, Unsafe)
      else Begin(s.(runs := s.runs + [Run(o, s.now, s.w.remote, true, false, None, None, false, ProbeClaim)],
                    reservation := Some(o.approval)), |s.runs|)
  {
    hide Begin;
  }

  lemma CallEnds(s: State, o: Options, error: Error)
    ensures EndsIn(ProbeClaim, Start(s, o), |s.runs|, error) ==> CallReason(s, o, error)
  {
    hide Begin, Start, Refused, Proven, Approves, EndsIn, EndsWith;
    StartIs(s, o);
    RefusedEnds(s, o, Unsafe, error);
    RefusedEnds(s, o, TerminalBusy, error);
    RefusedEnds(s, o, TerminalClosed, error);
    var s1 := s.(runs := s.runs + [Run(o, s.now, s.w.remote, true, false, None, None, false, ProbeClaim)],
                 reservation := Some(o.approval));
    BeginEnds(s1, o, |s.runs|, ProbeClaim, error);
    SameProof(s, s1, o);
  }

  lemma SameProof(s: State, s1: State, o: Options)
    requires s1 == s.(runs := s1.runs, reservation := s1.reservation)
    ensures Proven(s1, s.w.remote) == Proven(s, s.w.remote) && Approves(s1, o) == Approves(s, o)
  {
  }

  /** An abort ends the live job that it names, or any when it names none. */
  predicate AbortReason(s: State, i: nat, reason: ExecModel.AbortReason, expected: Option<nat>, error: Error)
    requires i < |s.runs|
  {
    && s.job == Some(i) && s.runs[i].stage.Running? && (expected.None? || expected == Some(s.runs[i].o.approval))
    && error == (if reason.Close? then TerminalClosed else Error.Cancelled)
  }

  lemma AbortEnds(s: State, i: nat, reason: ExecModel.AbortReason, expected: Option<nat>, error: Error)
    requires i < |s.runs|
    ensures EndsIn(s.runs[i].stage, AbortSession(s, reason, expected), i, error) <==> AbortReason(s, i, reason, expected, error)
  {
  }

  // ------------------------------------------------------------ password time and shell proofs

  /** What a card says about a job that has stopped talking. */
  predicate StallSays(job: Job, w: World, now: int, stall: Option<Stall>) {
    var hijacked := OnAlternate(w) || job.ladder.Some?;
    var live := w.entry.Some? && !w.disposed;
    var silent := now - w.dataAt >= 30_000;
    && (stall == Some(Hijacked) <==> hijacked)
    && (stall == Some(Password) <==> !hijacked && live && w.passwordRow)
    && (stall == Some(Stall.Input) <==> !hijacked && live && !w.passwordRow && silent && w.confirmRow)
    && (stall == Some(Stall.Idle) <==> !hijacked && live && !w.passwordRow && silent && !w.confirmRow)
  }

  lemma StallIs(job: Job, w: World, now: int)
    ensures StallSays(job, w, now, ClassifyStall(job, w, now))
  {
  }

  /** What a due beat makes of a job. */
  predicate Charged(job: Job, w: World, now: int, job': Job) {
    if w.entry.Some? && !w.disposed then
      && StallSays(job, w, now, job'.stall)
      && job' == job.(refreshAt := now + 750, stall := job'.stall, lastTick := now,
                      paused := job.paused + if job.stall == Some(Password) then now - job.lastTick else 0)
    else job' == job.(refreshAt := now + 750)
  }

  lemma RefreshCharges(s: State, i: nat)
    requires i < |s.runs| && s.runs[i].stage.Running?
    ensures var job := s.runs[i].stage.job; var after := Refresh(s, i).runs[i].stage;
      after.Running? && if s.now < job.refreshAt then after.job == job else Charged(job, s.w, s.now, after.job)
  {
    hide ClassifyStall, StallSays;
    StallIs(s.runs[i].stage.job, s.w, s.now);
  }

  /** A due beat on a live terminal looks again, and charges the time since the last look to
      the user when that one saw a password prompt. */
  lemma BeatCharges(s: State, i: nat)
    requires i < |s.runs| && s.runs[i].stage.Running?
    ensures var job := s.runs[i].stage.job; var after := Step(s, On(i, Beat)).runs[i].stage;
      after.Running? && if s.now < job.refreshAt then after.job == job else Charged(job, s.w, s.now, after.job)
  {
    hide Refresh, Charged;
    RefreshCharges(s, i);
  }

  /** Ending a live job leaves the shell proof as it is, unless the job ran on a host and no
      token of its own ever came: then nothing is proved any more. */
  lemma EndingLeavesProof(s: State, i: nat, outcome: Outcome)
    requires i < |s.runs| && s.runs[i].stage.Running?
    ensures var job := s.runs[i].stage.job;
      Finish(s, i, outcome).proof == if s.runs[i].remote.Some? && job.mode.Sentinel? && !job.proved then None else s.proof
  {
  }

  /** A job's own token proves its shell again, as of now. */
  lemma TokenProves(s: State, i: nat, exit: int)
    requires i < |s.runs| && s.runs[i].stage.Running? && s.runs[i].stage.job.mode.Sentinel?
    ensures var t := Step(s, On(i, Token(exit, true)));
      t.proof == if s.runs[i].remote.Some? && s.proof.Some? then Some(s.proof.value.(provenAt := s.now)) else s.proof
  {
    hide UserInterrupt, TuiInterrupt, SigintAnswered, KeyAnswered, LadderStep, BlockStarted, Refresh, Fire;
  }

  // ------------------------------------------------------------ over whole runs

  /** Why the event ends the run with this error. */
  ghost predicate Reason(s: State, e: Event, i: nat, error: Error) {
    match e
    case On(j, re) =>
      && j == i < |s.runs|
      && if s.runs[i].stage.Running? then LiveReason(s, i, re, error) else re.Resume? && PreReason(s, i, re.canWrite, error)
    case Call(o) => i == |s.runs| && CallReason(s, o, error)
    case Abort(reason, expected) => i < |s.runs| && AbortReason(s, i, reason, expected, error)
    case _ => false
  }

  lemma BufferedExits(s: State, i: nat)
    requires ExecSafety.Safe(s) && i < |s.runs| && s.runs[i].stage.Running?
    ensures s.runs[i].stage.job.buffered.Some? ==> s.runs[i].stage.job.buffered.value.exit.Some?
  {
    hide ExecSafety.Alone, ExecSafety.JobKnown, ExecSafety.Evidence;
    assert ExecSafety.StageOk(s.runs[i].stage, ExecSafety.CountOf(s.log, i));
  }

  lemma StepEnds(s: State, e: Event, i: nat, error: Error)
    requires ExecSafety.Safe(s)
    requires i < |s.runs| && EndsIn(s.runs[i].stage, Step(s, e), i, error)
    ensures Reason(s, e, i, error)
  {
    hide ExecSafety.Safe, JobStep, PreflightStep, Start, AbortSession, LiveReason, PreReason, CallReason, AbortReason;
    match e
    case On(j, re) =>
      if j < |s.runs| {
        OnlyThatRun(s, j, re, i);
        if j == i && s.runs[i].stage.Running? {
          BufferedExits(s, i);
          LiveEnds(s, i, re, error);
        } else if j == i {
          PreflightEnds(s, i, re, error);
        }
      }
    case Call(o) => CallKeeps(s, o, i);
    case Abort(reason, expected) => AbortEnds(s, i, reason, expected, error);
    case _ =>
  }

  lemma OnlyThatRun(s: State, j: nat, e: RunEvent, i: nat)
    requires j < |s.runs| && i < |s.runs|
    ensures var t := Step(s, On(j, e)); i < |t.runs| && (i != j ==> t.runs[i] == s.runs[i])
  {
    hide Step, Accepting, ProbeAllowed, Licensed, Same, Follows, CarriedBy;
    RunTouches(s, j, e);
  }

  lemma CallKeeps(s: State, o: Options, i: nat)
    requires i < |s.runs|
    ensures var t := Step(s, Call(o)); i < |t.runs| && t.runs[i] == s.runs[i]
  {
    hide Start;
    StartStarts(s, o);
    assert Start(s, o).runs[i] == Start(s, o).runs[..|s.runs|][i];
  }

  lemma {:induction false} ReasonsAreTraced(events: seq<Event>, n: nat, i: nat, error: Error)
    requires n <= |events| && i < |Before(events, n).runs| && EndsIn(ProbeClaim, Before(events, n), i, error)
    ensures exists k :: 0 <= k < n && Reason(Before(events, k), events[k], i, error)
    decreases n
  {
    hide Step, Reason, Before, ExecSafety.Safe;
    if n == 0 {
      NoRuns(events);
    } else {
      var s, e := Before(events, n - 1), events[n - 1];
      BeforeNext(events, n - 1);
      BeforeSafe(events, n - 1);
      StepRuns(s, e);
      if i < |s.runs| && s.runs[i].stage.Settled? {
        ExecSafety.StepKeeps(s, e, i);
        ReasonsAreTraced(events, n - 1, i, error);
      } else if i < |s.runs| {
        StepEnds(s, e, i, error);
        assert Reason(Before(events, n - 1), events[n - 1], i, error);
      } else {
        CallStarts(s, e.o);
        CallEnds(s, e.o, error);
        assert Reason(s, e, i, error) by { CallIsReason(s, e, i, error); }
      }
    }
  }

  lemma CallIsReason(s: State, e: Event, i: nat, error: Error)
    requires e.Call? && i == |s.runs| && CallReason(s, e.o, error)
    ensures Reason(s, e, i, error)
  {
  }

  lemma NoRuns(events: seq<Event>)
    ensures Before(events, 0).runs == []
  {
  }

  lemma BeforeSafe(events: seq<Event>, n: nat)
    requires n <= |events|
    ensures ExecSafety.Safe(Before(events, n))
  {
    hide ExecSafety.Safe, Execute;
    ExecSafety.NothingYet();
    ExecSafety.ExecuteSafe(INITIAL, events[..n]);
  }

  /** In every execution, a run that reports an error without an exit code was ended by an
      event at a moment when that error's reason was so. */
  lemma EveryErrorHasItsReason(events: seq<Event>, i: nat, error: Error)
    requires var s := Execute(INITIAL, events);
      i < |s.runs| && s.runs[i].stage.Settled? && s.runs[i].stage.outcome.exit.None? && s.runs[i].stage.outcome.error == Some(error)
    ensures exists k :: 0 <= k < |events| && Reason(Before(events, k), events[k], i, error)
  {
    hide Execute, Reason, Before;
    BeforeEnds(events);
    ReasonsAreTraced(events, |events|, i, error);
  }
}
