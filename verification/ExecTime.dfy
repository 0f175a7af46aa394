/** How long a run can take. Time is a step that cannot pass a due timer; every await
    that was answered continues before time goes on. */
module ExecTime {
  import opened Basics
  import opened ExecModel
  import opened ExecSafety

  predicate NotPast(at: Option<int>, to: int) { at.Some? ==> to <= at.value }

  /** The clock may go to `to` as far as this run is concerned. */
  predicate MayReach(r: Run, now: int, to: int) {
    match r.stage
    case ProbeClaim => to <= r.DeadlineAt()
    case FinalClaim(_, _) => to <= r.DeadlineAt()
    case Waiting(_, _, _, tickAt) => to <= tickAt
    case Probing(_, deadline) => to <= deadline
    case Running(job) =>
      && to <= job.capAt && to <= job.refreshAt && NotPast(job.bindAt, to) && NotPast(job.deliveryAt, to)
      && NotPast(job.graceAt, to) && NotPast(job.deadlineAt, to)
      && (job.ladder.Some? ==> NotPast(job.ladder.value.stepAt, to))
    case Settled(_, _) => true
    case _ => to <= now
  }

  ghost predicate Legal(s: State, e: Event) {
    e.Tick? ==> forall i :: 0 <= i < |s.runs| ==> MayReach(s.runs[i], s.now, e.to)
  }

  ghost predicate LegalRun(s: State, events: seq<Event>)
    decreases |events|
  {
    events != [] ==> Legal(s, events[0]) && LegalRun(Step(s, events[0]), events[1..])
  }

  /** The last moment at which a run can still be before dispatch. */
  function Limit(r: Run): int { r.startedAt + Max(0, r.o.timeout) + IDLE_POLL_MS }

  /** A gesture is answered within its delivery second, and then within its grace. */
  predicate GestureTimely(job: Job, now: int) {
    && (job.gestureAt.Some? <==> job.pending)
    && (job.confirmed ==> job.pending)
    && (job.pending ==>
          if job.confirmed then
            job.graceAt.Some? && now <= job.graceAt.value
            && job.graceAt.value <= job.gestureAt.value + USER_INTERRUPT_DELIVERY_TIMEOUT_MS + USER_INTERRUPT_GRACE_MS
          else
            now <= job.gestureAt.value + USER_INTERRUPT_DELIVERY_TIMEOUT_MS
            && job.deliveryAt == Some(job.gestureAt.value + USER_INTERRUPT_DELIVERY_TIMEOUT_MS))
    && (job.pending && !job.confirmed ==> job.graceAt.None?)
    && (job.pending ==> job.ladder.None?)
  }

  predicate Timely(r: Run, now: int) {
    match r.stage
    case ProbeClaim => now <= r.DeadlineAt()
    case FinalClaim(_, _) => now <= r.DeadlineAt()
    case Waiting(_, deadline, _, tickAt) => now <= tickAt <= Limit(r) && (now < deadline ==> deadline <= r.DeadlineAt())
    case Probing(_, deadline) => now <= deadline <= r.DeadlineAt()
    case Running(job) =>
      && job.capAt == r.DeadlineAt() + FRONTEND_WATCHDOG_GRACE_MS && now <= job.capAt && GestureTimely(job, now)
    case Settled(_, _) => true
    case _ => now <= Limit(r)
  }

  ghost predicate Timed(s: State) { forall i :: 0 <= i < |s.runs| ==> Timely(s.runs[i], s.now) }

  // ------------------------------------------------------------ a live job

  /** The live run i is settled, or still on time. */
  predicate OnTime(t: State, i: nat) { i < |t.runs| && Timely(t.runs[i], t.now) }

  lemma JobTimely(s: State, i: nat, e: RunEvent)
    requires i < |s.runs| && s.runs[i].stage.Running? && Timely(s.runs[i], s.now)
    ensures OnTime(JobStep(s, i, e), i)
  {
    hide Finish, Fire, Complete, SigintAnswered, LadderStep, KeyAnswered, BlockStarted, TuiInterrupt, UserInterrupt, Refresh,
      TokenSeen, GestureTimely;
    FinishTimely(s, i, Failed(TerminalClosed));
    match e
    case Gesture(_, thrown) => GestureStartsTimely(s, i, thrown);
    case SigintReply(delivered) => AnswersTimely(s, i, delivered);
    case KeyReply => LadderTimely(s, i);
    case Rung => LadderTimely(s, i);
    case Started(block, ours) => BlockTimely(s, i, block, ours);
    case AlternateScreen => AlternateTimely(s, i);
    case Beat => RefreshTimely(s, i);
    case Ended(_, exit) => CompleteTimely(s, i, exit);
    case Token(exit, mine) => TokenTimely(s, i, exit, mine);
    case Alarm(timer) => FireTimely(s, i, timer);
    case _ =>
  }

  lemma TokenTimely(s: State, i: nat, exit: int, ours: bool)
    requires i < |s.runs| && s.runs[i].stage.Running? && Timely(s.runs[i], s.now)
    ensures OnTime(TokenSeen(s, i, exit, ours), i)
  {
    hide Complete;
    var job := s.runs[i].stage.job;
    var renewed := if s.runs[i].remote.Some? && s.proof.Some? then Some(s.proof.value.(provenAt := s.now)) else s.proof;
    CompleteTimely(Update(s.(proof := renewed), i, job.(proved := true)), i, exit);
  }

  lemma UpdateTimely(s: State, i: nat, job: Job)
    requires i < |s.runs| && s.runs[i].stage.Running? && Timely(s.runs[i], s.now)
    requires job.capAt == s.runs[i].stage.job.capAt && GestureTimely(job, s.now)
    ensures OnTime(Update(s, i, job), i)
  {
    hide GestureTimely;
  }

  lemma UpdateRunning(s: State, i: nat, job: Job)
    requires i < |s.runs|
    ensures i < |Update(s, i, job).runs| && Update(s, i, job).runs[i].stage == Running(job)
  {
  }

  lemma LoggedTimely(s: State, i: nat, e: Entry)
    ensures OnTime(s.Write(e), i) == OnTime(s, i)
  {
    hide Timely;
  }

  lemma Unchanged(s: State, i: nat)
    requires i < |s.runs| && s.runs[i].stage.Running? && Timely(s.runs[i], s.now)
    ensures OnTime(s, i) && GestureTimely(s.runs[i].stage.job, s.now)
  {
    hide GestureTimely;
  }

  lemma GestureStartsTimely(s: State, i: nat, thrown: bool)
    requires i < |s.runs| && s.runs[i].stage.Running? && Timely(s.runs[i], s.now)
    ensures OnTime(UserInterrupt(s, i, thrown), i)
  {
    hide Finish, OnTime, Update;
    var job := s.runs[i].stage.job;
    var asked := job.(pending := true, cause := Some(User), gestureAt := Some(s.now));
    var armed := asked.(deliveryAt := Some(s.now + USER_INTERRUPT_DELIVERY_TIMEOUT_MS));
    Unchanged(s, i);
    if !(job.pending || job.ladder.Some? || job.graceAt.Some?) {
      UpdateRunning(s, i, asked);
      FinishTimely(Update(s, i, asked), i, Failed(InterruptFailed));
      UpdateTimely(s, i, armed);
      LoggedTimely(Update(s, i, armed), i, Key(i, User));
    }
  }

  lemma AnswersTimely(s: State, i: nat, delivered: bool)
    requires i < |s.runs| && s.runs[i].stage.Running? && Timely(s.runs[i], s.now)
    ensures OnTime(SigintAnswered(s, i, delivered), i)
  {
    hide Finish, OnTime, Update;
    var job := s.runs[i].stage.job;
    Unchanged(s, i);
    FinishTimely(s, i, Failed(InterruptFailed));
    if job.pending && !job.confirmed && delivered {
      var known := job.(confirmed := true, deliveryAt := None);
      if known.buffered.Some? {
        UpdateRunning(s, i, known.(buffered := None));
        FinishTimely(Update(s, i, known.(buffered := None)), i, known.buffered.value);
      } else {
        UpdateTimely(s, i, ArmGrace(known, s.now));
      }
    }
  }

  lemma LadderTimely(s: State, i: nat)
    requires i < |s.runs| && s.runs[i].stage.Running? && Timely(s.runs[i], s.now)
    ensures OnTime(LadderStep(s, i), i) && OnTime(KeyAnswered(s, i), i)
  {
    hide Finish, OnTime, Update;
    var job := s.runs[i].stage.job;
    Unchanged(s, i);
    FinishTimely(s, i, Failed(InterruptFailed));
    if job.ladder.Some? {
      var ladder := job.ladder.value;
      if ladder.stepAt.Some? {
        UpdateTimely(s, i, ArmGrace(job.(ladder := None), s.now));
        UpdateTimely(s, i, job.(ladder := Some(Ladder(ladder.keys + 1, None))));
        LoggedTimely(Update(s, i, job.(ladder := Some(Ladder(ladder.keys + 1, None)))), i, Key(i, Tui));
      } else {
        UpdateTimely(s, i, job.(ladder := Some(ladder.(stepAt := Some(s.now + LADDER_STEP_MS)))));
      }
    }
  }

  lemma BlockTimely(s: State, i: nat, block: nat, ours: bool)
    requires i < |s.runs| && s.runs[i].stage.Running? && Timely(s.runs[i], s.now)
    ensures OnTime(BlockStarted(s, i, block, ours), i)
  {
  }

  lemma RefreshTimely(s: State, i: nat)
    requires i < |s.runs| && s.runs[i].stage.Running? && Timely(s.runs[i], s.now)
    ensures OnTime(Refresh(s, i), i)
  {
    hide ClassifyStall;
  }

  lemma AlternateTimely(s: State, i: nat)
    requires i < |s.runs| && s.runs[i].stage.Running? && Timely(s.runs[i], s.now)
    ensures OnTime(TuiInterrupt(Update(s, i, s.runs[i].stage.job.(stall := Some(Hijacked))), i), i)
  {
  }

  lemma CompleteTimely(s: State, i: nat, exit: int)
    requires i < |s.runs| && s.runs[i].stage.Running? && Timely(s.runs[i], s.now)
    ensures OnTime(Complete(s, i, exit), i)
  {
    hide Finish, OnTime, Update;
    var job := s.runs[i].stage.job;
    var outcome := Outcome(Some(exit), if job.cause.Some? then Some(Interrupted) else None, false);
    var seen := job.(completions := job.completions + [outcome]);
    Unchanged(s, i);
    UpdateRunning(s, i, seen);
    if job.cause == Some(User) && job.pending && !job.confirmed {
      UpdateTimely(s, i, if job.buffered.None? then seen.(buffered := Some(outcome)) else seen);
    } else {
      FinishTimely(Update(s, i, seen), i, outcome);
    }
  }

  lemma FireTimely(s: State, i: nat, timer: Timer)
    requires i < |s.runs| && s.runs[i].stage.Running? && Timely(s.runs[i], s.now)
    ensures OnTime(Fire(s, i, timer), i)
  {
    hide Finish, GestureTimely, OnTime, Update;
    var r := s.runs[i];
    var job := r.stage.job;
    Unchanged(s, i);
    FinishTimely(s, i, Failed(NotObserved));
    FinishTimely(s, i, Failed(Interrupted));
    FinishTimely(s, i, Failed(InterruptFailed));
    FinishTimely(s, i, Failed(Timeout));
    TimerSame(job, s.now);
    match timer
    case BindTimer => UpdateTimely(s, i, job.(bindAt := None));
    case DeliveryTimer => if job.confirmed { UpdateTimely(s, i, job.(deliveryAt := None)); }
    case DeadlineTimer =>
      UpdateTimely(s, i, job.(deadlineAt := None));
      UpdateTimely(s, i, job.(deadlineAt := Some(s.now + (r.o.timeout - (s.now - r.startedAt - job.paused)))));
    case _ =>
  }

  lemma FinishTimely(s: State, i: nat, outcome: Outcome)
    requires i < |s.runs| && s.runs[i].stage.Running?
    ensures OnTime(Finish(s, i, outcome), i)
  {
  }

  /** Clearing a timer that a gesture does not depend on. */
  lemma TimerSame(job: Job, now: int)
    requires GestureTimely(job, now)
    ensures GestureTimely(job.(bindAt := None), now)
    ensures forall at :: GestureTimely(job.(deadlineAt := at), now)
    ensures job.confirmed ==> GestureTimely(job.(deliveryAt := None), now)
  {
  }

  /** The cap settles whatever is still live, and so does the timer that a gesture armed. */
  lemma TimersSettle(s: State, i: nat)
    requires i < |s.runs| && s.runs[i].stage.Running? && Timely(s.runs[i], s.now)
    ensures var job := s.runs[i].stage.job;
      && (s.now == job.capAt ==> Step(s, On(i, Alarm(CapTimer))).runs[i].stage.Settled?)
      && (job.pending && !job.confirmed && s.now == job.gestureAt.value + USER_INTERRUPT_DELIVERY_TIMEOUT_MS ==>
            Step(s, On(i, Alarm(DeliveryTimer))).runs[i].stage.Settled?)
      && (job.pending && job.confirmed && s.now == job.graceAt.value ==>
            Step(s, On(i, Alarm(GraceTimer))).runs[i].stage.Settled?)
  {
  }

  // ------------------------------------------------------------ before dispatch

  lemma PreflightTimely(s: State, i: nat, e: RunEvent)
    requires i < |s.runs| && !s.runs[i].stage.Running? && Timely(s.runs[i], s.now)
    ensures OnTime(PreflightStep(s, i, e), i)
  {
    hide AfterProbeClaim, AfterWait, AfterProbe, AfterFinalClaim;
    if e.Resume? {
      var stage := s.runs[i].stage;
      if stage.ProbeClaimed? || stage.FinalClaimed? { AfterClaimTimely(s, i, e.canWrite); }
      if stage.Waited? { AfterWaitTimely(s, i, e.canWrite); }
      if stage.Probed? { AfterProbeTimely(s, i); }
    }
  }

  lemma AtTimely(s: State, i: nat, stage: Stage)
    requires i < |s.runs| && Timely(s.runs[i].(stage := stage), s.now)
    ensures OnTime(s.At(i, stage), i)
  {
  }

  lemma WaitTimely(s: State, i: nat, goal: Goal)
    requires i < |s.runs| && s.now <= Limit(s.runs[i])
    ensures OnTime(Wait(s, i, goal), i)
  {
    var left := Max(0, Min(s.runs[i].o.idleWait, s.runs[i].DeadlineAt() - s.now));
    AtTimely(s, i, Waiting(goal, s.now + left, s.now + PROMPT_GRACE_MS, s.now));
  }

  lemma ChooseTimely(s: State, i: nat)
    requires i < |s.runs| && s.now <= Limit(s.runs[i])
    ensures OnTime(ChooseMode(s, i), i)
  {
    hide Wait;
    var r := s.runs[i];
    WaitTimely(s, i, if r.remote.Some? then ForProbe else if r.o.nonceCompletion then ForSentinel else ForIntegrated);
  }

  lemma DispatchTimely(s: State, i: nat, mode: Mode, prompt: Prompt, canWrite: bool)
    requires i < |s.runs|
    ensures OnTime(Dispatch(s, i, mode, prompt, canWrite), i)
  {
    hide PromptBound;
    if s.runs[i].Remaining(s.now) > 0 { AtTimely(s, i, Running(NewJob(s.runs[i], mode, s.now))); }
  }

  lemma PrepareTimely(s: State, i: nat, mode: Mode, canWrite: bool)
    requires i < |s.runs| && s.now <= Limit(s.runs[i])
    ensures OnTime(Prepare(s, i, mode, canWrite), i)
  {
    hide Dispatch;
    DispatchTimely(s, i, mode, PromptOf(s.w), canWrite);
    if s.runs[i].Remaining(s.now) > 0 { AtTimely(s, i, FinalClaim(mode, PromptOf(s.w))); }
  }

  lemma AfterClaimTimely(s: State, i: nat, canWrite: bool)
    requires i < |s.runs| && s.now <= Limit(s.runs[i])
    ensures s.runs[i].stage.ProbeClaimed? ==> OnTime(AfterProbeClaim(s, i), i)
    ensures s.runs[i].stage.FinalClaimed? ==> OnTime(AfterFinalClaim(s, i, canWrite), i)
  {
    hide Dispatch, ChooseMode, Wait;
    var r := s.runs[i];
    if r.stage.ProbeClaimed? {
      var s1 := s.(runs := s.runs[i := r.(authorized := true)]);
      ChooseTimely(s1, i);
    }
    if r.stage.FinalClaimed? { DispatchTimely(s, i, r.stage.mode, r.stage.prompt, canWrite); }
  }

  lemma NoPromptTimely(s: State, i: nat, result: Readiness)
    requires i < |s.runs|
    ensures OnTime(NoPrompt(s, i, result), i)
  {
  }

  lemma EndTimely(s: State, i: nat, outcome: Outcome)
    requires i < |s.runs| && s.now <= Limit(s.runs[i])
    ensures OnTime(EndUnlessAborted(s, i, outcome), i)
  {
  }

  lemma RememberedSame(s: State, remote: Option<nat>)
    ensures var t := RememberProof(s, remote); t.runs == s.runs && t.now == s.now
  {
  }

  lemma AfterWaitTimely(s: State, i: nat, canWrite: bool)
    requires i < |s.runs| && s.runs[i].stage.Waited? && s.now <= Limit(s.runs[i])
    ensures OnTime(AfterWait(s, i, canWrite), i)
  {
    hide Prepare, SendProbe, NoPrompt, EndUnlessAborted, RememberProof, OnTime;
    var r := s.runs[i];
    PrepareTimely(s, i, Integrated, canWrite);
    PrepareTimely(s, i, Sentinel, canWrite);
    SendProbeTimely(s, i);
    NoPromptTimely(s, i, r.stage.result);
    EndTimely(s, i, Failed(TargetChanged));
    RememberedSame(s, r.remote);
    PrepareTimely(RememberProof(s, r.remote), i, Sentinel, canWrite);
  }

  lemma SendProbeTimely(s: State, i: nat)
    requires i < |s.runs| && s.now <= Limit(s.runs[i])
    ensures OnTime(SendProbe(s, i), i)
  {
    hide Reusable, NoPrompt, EndUnlessAborted, OnTime, State.At, State.Write;
    var r := s.runs[i];
    var s1 := Reusable(s, r.remote).1;
    ReusableSame(s, r.remote);
    NoPromptTimely(s1, i, NotReady);
    EndTimely(s1, i, Failed(TargetChanged));
    AtTimely(s1, i, Probed(s.w.Keyboard(), false));
    var left := Min(PROBE_WAIT_MS, r.DeadlineAt() - s.now);
    if left > 0 {
      AtTimely(s1, i, Probing(s.w.Keyboard(), s.now + left));
      LoggedTimely(s1.At(i, Probing(s.w.Keyboard(), s.now + left)), i, Probe(i, s.w));
    }
  }

  lemma AfterProbeTimely(s: State, i: nat)
    requires i < |s.runs| && s.runs[i].stage.Probed? && s.now <= Limit(s.runs[i])
    ensures OnTime(AfterProbe(s, i), i)
  {
    hide Wait, Dispatch, ChooseMode;
    WaitTimely(s, i, ForCommand(s.runs[i].stage.keyboard));
  }

  lemma BeginTimely(s: State, i: nat)
    requires i < |s.runs| && s.runs[i].stage.ProbeClaim? && s.now == s.runs[i].startedAt
    ensures OnTime(Begin(s, i), i)
  {
    hide Reusable, ChooseMode;
    var r := s.runs[i];
    var token := r.o.binding;
    var found := token.Some? && token.value in s.bindings;
    var taken := if found then Some(s.bindings[token.value]) else None;
    var s1 := if found then s.(bindings := s.bindings - {token.value}) else s;
    var approved :=
      if taken.Some? && taken.value.here && s.now - taken.value.capturedAt <= APPROVAL_PROMPT_TTL_MS
      then Some(taken.value.prompt) else None;
    if !(token.Some? && (approved.None? || !Still(approved.value, s.w))) {
      var s2 := s1.(runs := s1.runs[i := r.(approved := approved)]);
      var gated := r.o.attested && r.remote.Some? && approved.None?;
      ReusableSame(s2, r.remote);
      var s3 := (if gated then Reusable(s2, r.remote) else (true, s2)).1;
      ChooseTimely(s3, i);
    }
  }

  // ------------------------------------------------------------ every legal run

  lemma StepTimed(s: State, e: Event)
    requires Safe(s) && Timed(s) && Legal(s, e)
    ensures Timed(Step(s, e))
  {
    hide Safe, Start, AbortSession, JobStep, PreflightStep;
    match e
    case Tick(to) =>
      forall i | 0 <= i < |s.runs| ensures Timely(s.runs[i], Max(s.now, to)) { TickTimely(s.runs[i], s.now, to); }
    case Call(o) => StartTimed(s, o);
    case Abort(reason, expected) => AbortTimed(s, reason, expected);
    case On(i, e) =>
      if i < |s.runs| { RunTimed(s, i, e); }
    case _ =>
  }

  lemma TickTimely(r: Run, now: int, to: int)
    requires Timely(r, now) && MayReach(r, now, to)
    ensures Timely(r, Max(now, to))
  {
  }

  lemma RunTimed(s: State, i: nat, e: RunEvent)
    requires Safe(s) && Timed(s) && i < |s.runs|
    ensures Timed(if s.runs[i].stage.Running? then JobStep(s, i, e) else PreflightStep(s, i, e))
  {
    hide Safe, JobStep, PreflightStep, Timely, StageOk;
    RunStepMoves(s, i, e);
    if s.runs[i].stage.Running? {
      JobTimely(s, i, e);
    } else {
      PreflightTimely(s, i, e);
      if e.Finally? { FinallyTimed(s, i); }
    }
  }

  lemma FinallyTimed(s: State, i: nat)
    requires Timed(s) && i < |s.runs| && !s.runs[i].stage.Running?
    ensures Timed(PreflightStep(s, i, Finally))
  {
  }

  lemma StartTimed(s: State, o: Options)
    requires Safe(s) && Timed(s)
    ensures Timed(Start(s, o))
  {
    hide Safe, Begin, Timely, Counted, Limit;
    var i := |s.runs|;
    var t := Start(s, o);
    SafeStart(s, o);
    forall j | 0 <= j < |t.runs| ensures Timely(t.runs[j], t.now) {
      if j < i { StartKeeps(s, o, j); }
    }
  }

  lemma SafeStart(s: State, o: Options)
    requires Safe(s)
    ensures var t := Start(s, o);
      t.now == s.now && |t.runs| == |s.runs| + 1 && Timely(t.runs[|s.runs|], t.now)
  {
    hide Begin, Counted, StageOk, CountOf, PromptBound, Alone, JobKnown, Evidence, Tallied;
    var i := |s.runs|;
    if o.sane && s.job.None? && s.reservation.None? && s.w.Live() && !((s.w.remote.Some? || o.nonceCompletion) && !o.suffixable) {
      var pushed := Pushed(s, o, None);
      var s2 := BeginMoves(pushed, i, ZERO);
      CountedShape(s2, Start(s, o), i);
      BeginTimely(pushed, i);
    }
  }

  lemma CountedShape(s: State, t: State, i: nat)
    requires Counted(s, t, i, ZERO)
    ensures |t.runs| == |s.runs| && t.now == s.now
  {
    hide StageOk;
  }

  lemma AbortTimed(s: State, reason: AbortReason, expected: Option<nat>)
    requires Safe(s) && Timed(s)
    ensures Timed(AbortSession(s, reason, expected))
  {
    hide Safe;
    var t := AbortSession(s, reason, expected);
    forall k | 0 <= k < |t.runs| ensures Timely(t.runs[k], t.now) {
      if s.job.None? || s.job.value >= |s.runs| { AbortRunTimely(s.runs[k], reason, s.now); }
    }
  }

  lemma AbortRunTimely(r: Run, reason: AbortReason, now: int)
    requires Timely(r, now)
    ensures Timely(AbortRun(r, reason), now)
  {
  }

  lemma {:induction false} ExecuteTimed(s: State, events: seq<Event>)
    requires Safe(s) && Timed(s) && LegalRun(s, events)
    ensures Safe(Execute(s, events)) && Timed(Execute(s, events))
    decreases |events|
  {
    hide Safe, Timed, Step, Legal;
    if events != [] {
      StepSafe(s, events[0]);
      StepTimed(s, events[0]);
      ExecuteTimed(Step(s, events[0]), events[1..]);
    }
  }

  /** In every legal execution, a run that has not settled is within its timeout plus
      fifteen seconds of its start, and within two seconds of a user's interrupt, in
      every ordering of replies, block ends and password pauses. */
  lemma BoundedSettlement(events: seq<Event>, i: nat)
    requires LegalRun(INITIAL, events)
    requires var s := Execute(INITIAL, events); i < |s.runs| && !s.runs[i].stage.Settled?
    ensures var s := Execute(INITIAL, events);
      && s.now <= s.runs[i].startedAt + Max(0, s.runs[i].o.timeout) + FRONTEND_WATCHDOG_GRACE_MS
      && (s.runs[i].stage.Running? ==>
            && s.now <= s.runs[i].DeadlineAt() + FRONTEND_WATCHDOG_GRACE_MS
            && (s.runs[i].stage.job.gestureAt.Some? ==> s.now <= s.runs[i].stage.job.gestureAt.value + 2_000))
  {
    hide Execute, LegalRun;
    ExecuteTimed(INITIAL, events);
    var s := Execute(INITIAL, events);
    assert Timely(s.runs[i], s.now);
  }

  // ------------------------------------------------------------ time goes on

  function IfDue(at: Option<int>, now: int): nat { if Due(at, now) then 1 else 0 }

  /** How many timers of a live job must still fire before time goes on; the reporting
      cap and the grace timer settle the run at once. */
  function DueTimers(job: Job, now: int): nat {
    IfDue(job.bindAt, now) + IfDue(job.deliveryAt, now) + IfDue(job.deadlineAt, now) + IfDue(Some(job.refreshAt), now)
    + (if job.ladder.Some? then IfDue(job.ladder.value.stepAt, now) else 0)
  }

  /** How far a run is from letting the clock move. */
  function Rank(r: Run, now: int): nat {
    if MayReach(r, now, now + 1) then 0
    else
      match r.stage
      case ProbeClaim => 19
      case ProbeClaimed(_) => 18
      case Waiting(goal, _, _, _) => if goal.ForProbe? then 17 else 13
      case Waited(goal, _) => if goal.ForProbe? then 16 else 12
      case Probing(_, _) => 15
      case Probed(_, _) => 14
      case FinalClaim(_, _) => 11
      case FinalClaimed(_, _, _) => 10
      case Running(job) => 1 + DueTimers(job, now)
      case Settled(_, _) => 0
  }

  /** The timer or the answered await that a run is due. */
  function NextOf(r: Run, now: int): RunEvent {
    match r.stage
    case ProbeClaim => ClaimExpired
    case FinalClaim(_, _) => ClaimExpired
    case Waiting(_, _, _, _) => Poll
    case Probing(_, _) => ProbeExpired
    case Running(job) =>
      if job.capAt <= now then Alarm(CapTimer)
      else if Due(job.graceAt, now) then Alarm(GraceTimer)
      else if job.refreshAt <= now then Beat
      else if Due(job.bindAt, now) then Alarm(BindTimer)
      else if Due(job.deliveryAt, now) then Alarm(DeliveryTimer)
      else if Due(job.deadlineAt, now) then Alarm(DeadlineTimer)
      else Rung
    case _ => Resume(true)
  }

  /** Run i of t is closer to letting the clock move than its rank before. */
  predicate Closer(s: State, t: State, i: nat, rank: nat) {
    i < |t.runs| && |t.runs| == |s.runs| && t.now == s.now && Rank(t.runs[i], t.now) < rank
  }

  lemma JobAdvances(s: State, i: nat)
    requires i < |s.runs| && s.runs[i].stage.Running? && Rank(s.runs[i], s.now) > 0
    ensures Closer(s, JobStep(s, i, NextOf(s.runs[i], s.now)), i, Rank(s.runs[i], s.now))
  {
    hide Closer, Rank, Finish, Refresh, LadderStep, Fire;
    var job := s.runs[i].stage.job;
    var rank := Rank(s.runs[i], s.now);
    RankOfJob(s.runs[i], s.now);
    if job.capAt > s.now && !Due(job.graceAt, s.now) {
      if job.refreshAt <= s.now {
        RefreshAdvances(s, i);
      } else if Due(job.bindAt, s.now) || Due(job.deliveryAt, s.now) || Due(job.deadlineAt, s.now) {
        TimerAdvances(s, i);
      } else {
        RungAdvances(s, i);
      }
    } else {
      CapAdvances(s, i);
      var timer := if job.capAt <= s.now then CapTimer else GraceTimer;
      CloserThan(s, Fire(s, i, timer), i, 1, rank);
    }
  }

  lemma RankOfJob(r: Run, now: int)
    requires r.stage.Running?
    ensures Rank(r, now) <= 1 + DueTimers(r.stage.job, now)
    ensures Rank(r, now) > 0 ==> Rank(r, now) == 1 + DueTimers(r.stage.job, now)
    ensures var job := r.stage.job;
      Rank(r, now) > 0 && job.capAt > now && !Due(job.graceAt, now) ==> DueTimers(job, now) > 0
  {
  }

  lemma CapAdvances(s: State, i: nat)
    requires i < |s.runs| && s.runs[i].stage.Running?
    ensures var job := s.runs[i].stage.job;
      && (job.capAt <= s.now ==> Closer(s, Fire(s, i, CapTimer), i, 1))
      && (Due(job.graceAt, s.now) ==> Closer(s, Fire(s, i, GraceTimer), i, 1))
  {
  }

  lemma UpdatedRank(s: State, i: nat, job: Job)
    requires i < |s.runs|
    ensures Closer(s, Update(s, i, job), i, 2 + DueTimers(job, s.now))
  {
    hide Rank, DueTimers;
    RankOfJob(Update(s, i, job).runs[i], s.now);
  }

  lemma FinishedRank(s: State, i: nat, outcome: Outcome)
    requires i < |s.runs| && s.runs[i].stage.Running?
    ensures Closer(s, Finish(s, i, outcome), i, 1)
  {
  }

  lemma CloserThan(s: State, t: State, i: nat, rank: nat, rank': nat)
    requires Closer(s, t, i, rank) && rank <= rank'
    ensures Closer(s, t, i, rank')
  {
  }

  lemma RefreshAdvances(s: State, i: nat)
    requires i < |s.runs| && s.runs[i].stage.Running? && s.runs[i].stage.job.refreshAt <= s.now
    ensures Closer(s, Refresh(s, i), i, 1 + DueTimers(s.runs[i].stage.job, s.now))
  {
    hide Closer, ClassifyStall;
    var job := s.runs[i].stage.job;
    var next := job.(refreshAt := s.now + CARD_REFRESH_MS);
    UpdatedRank(s, i, next);
    UpdatedRank(s, i, next.(
      paused := if job.stall == Some(Password) then job.paused + (s.now - job.lastTick) else job.paused,
      lastTick := s.now,
      stall := ClassifyStall(job, s.w, s.now)));
  }

  lemma TimerAdvances(s: State, i: nat)
    requires i < |s.runs| && s.runs[i].stage.Running?
    ensures var r := s.runs[i]; var job := r.stage.job; var rank := 1 + DueTimers(job, s.now);
      && (Due(job.bindAt, s.now) ==> Closer(s, Fire(s, i, BindTimer), i, rank))
      && (Due(job.deliveryAt, s.now) ==> Closer(s, Fire(s, i, DeliveryTimer), i, rank))
      && (Due(job.deadlineAt, s.now) ==> Closer(s, Fire(s, i, DeadlineTimer), i, rank))
  {
    hide Closer, Finish;
    var r, job := s.runs[i], s.runs[i].stage.job;
    FinishedRank(s, i, Failed(NotObserved));
    CloserThan(s, Finish(s, i, Failed(NotObserved)), i, 1, 1 + DueTimers(job, s.now));
    FinishedRank(s, i, Failed(InterruptFailed));
    CloserThan(s, Finish(s, i, Failed(InterruptFailed)), i, 1, 1 + DueTimers(job, s.now));
    FinishedRank(s, i, Failed(Timeout));
    CloserThan(s, Finish(s, i, Failed(Timeout)), i, 1, 1 + DueTimers(job, s.now));
    UpdatedRank(s, i, job.(bindAt := None));
    UpdatedRank(s, i, job.(deliveryAt := None));
    UpdatedRank(s, i, job.(deadlineAt := None));
    UpdatedRank(s, i, job.(deadlineAt := Some(s.now + (r.o.timeout - (s.now - r.startedAt - job.paused)))));
  }

  lemma RungAdvances(s: State, i: nat)
    requires i < |s.runs| && s.runs[i].stage.Running? && s.runs[i].stage.job.ladder.Some?
    requires Due(s.runs[i].stage.job.ladder.value.stepAt, s.now)
    ensures Closer(s, LadderStep(s, i), i, 1 + DueTimers(s.runs[i].stage.job, s.now))
  {
    hide Closer, Finish, Update, DueTimers;
    var job := s.runs[i].stage.job;
    var due := DueTimers(job, s.now);
    var graced := ArmGrace(job.(ladder := None), s.now);
    var climbed := job.(ladder := Some(Ladder(job.ladder.value.keys + 1, None)));
    RungIsSpent(job, s.now);
    FinishedRank(s, i, Failed(InterruptFailed));
    CloserThan(s, Finish(s, i, Failed(InterruptFailed)), i, 1, 1 + due);
    UpdatedRank(s, i, graced);
    UpdatedRank(s, i, climbed);
    CloserWritten(s, Update(s, i, climbed), i, 1 + due, Key(i, Tui));
  }

  lemma RungIsSpent(job: Job, now: int)
    requires job.ladder.Some? && Due(job.ladder.value.stepAt, now)
    ensures DueTimers(ArmGrace(job.(ladder := None), now), now) + 1 == DueTimers(job, now)
    ensures DueTimers(job.(ladder := Some(Ladder(job.ladder.value.keys + 1, None))), now) + 1 == DueTimers(job, now)
  {
  }

  lemma CloserWritten(s: State, t: State, i: nat, rank: nat, e: Entry)
    requires Closer(s, t, i, rank)
    ensures Closer(s, t.Write(e), i, rank)
  {
  }

  lemma PreflightAdvances(s: State, i: nat)
    requires i < |s.runs| && !s.runs[i].stage.Running? && Rank(s.runs[i], s.now) > 0
    ensures Closer(s, PreflightStep(s, i, NextOf(s.runs[i], s.now)), i, Rank(s.runs[i], s.now))
  {
    hide AfterProbeClaim, AfterWait, AfterProbe, AfterFinalClaim, PromptShown;
    var stage := s.runs[i].stage;
    if stage.ProbeClaimed? || stage.FinalClaimed? { ClaimAdvances(s, i); }
    if stage.Waited? { WaitAdvances(s, i); }
    if stage.Probed? { ProbeAdvances(s, i); }
  }

  lemma AtRank(s: State, i: nat, stage: Stage, rank: nat)
    requires i < |s.runs| && Rank(s.runs[i].(stage := stage), s.now) < rank
    ensures Closer(s, s.At(i, stage), i, rank)
  {
    hide Rank;
  }

  lemma EndRank(s: State, i: nat, outcome: Outcome, rank: nat)
    requires i < |s.runs| && rank > 0
    ensures Closer(s, End(s, i, outcome), i, rank)
  {
    AtRank(s, i, Settled(outcome, None), rank);
  }

  lemma WaitRank(s: State, i: nat, goal: Goal, rank: nat)
    requires i < |s.runs| && rank > if goal.ForProbe? then 17 else 13
    ensures Closer(s, Wait(s, i, goal), i, rank)
  {
    var left := Max(0, Min(s.runs[i].o.idleWait, s.runs[i].DeadlineAt() - s.now));
    AtRank(s, i, Waiting(goal, s.now + left, s.now + PROMPT_GRACE_MS, s.now), rank);
  }

  lemma DispatchRank(s: State, i: nat, mode: Mode, prompt: Prompt)
    requires i < |s.runs|
    ensures Closer(s, Dispatch(s, i, mode, prompt, true), i, 1)
  {
    hide PromptBound, End, Closer, NewJob, State.At, State.Write;
    var r := s.runs[i];
    EndRank(s, i, r.AbortedOutcome(), 1);
    EndRank(s, i, Failed(TerminalBusy), 1);
    EndRank(s, i, Failed(TargetChanged), 1);
    if r.Remaining(s.now) > 0 {
      NewJobRank(s, i, mode);
      var live := s.At(i, Running(NewJob(r, mode, s.now))).(job := Some(i));
      CloserWritten(s, live, i, 1, Line(i, mode, prompt, s.w));
    }
  }

  lemma NewJobRank(s: State, i: nat, mode: Mode)
    requires i < |s.runs| && s.runs[i].Remaining(s.now) > 0
    ensures Closer(s, s.At(i, Running(NewJob(s.runs[i], mode, s.now))).(job := Some(i)), i, 1)
  {
    AtRank(s, i, Running(NewJob(s.runs[i], mode, s.now)), 1);
  }

  lemma PrepareRank(s: State, i: nat, mode: Mode)
    requires i < |s.runs|
    ensures Closer(s, Prepare(s, i, mode, true), i, 1)
  {
    hide Dispatch, Closer, End, State.At;
    var r := s.runs[i];
    EndRank(s, i, r.AbortedOutcome(), 1);
    EndRank(s, i, Failed(TerminalClosed), 1);
    EndRank(s, i, Failed(Unsafe), 1);
    EndRank(s, i, Failed(TargetChanged), 1);
    DispatchRank(s, i, mode, PromptOf(s.w));
    if r.Remaining(s.now) > 0 { AtRank(s, i, FinalClaim(mode, PromptOf(s.w)), 1); }
  }

  lemma ChooseRank(s: State, i: nat)
    requires i < |s.runs|
    ensures Closer(s, ChooseMode(s, i), i, 18)
  {
    hide Closer, End, Wait;
    var r := s.runs[i];
    EndRank(s, i, Failed(TargetChanged), 18);
    WaitRank(s, i, if r.remote.Some? then ForProbe else if r.o.nonceCompletion then ForSentinel else ForIntegrated, 18);
  }

  /** A different proof or authorization does not change how close a run is. */
  lemma CloserVia(s: State, s': State, t: State, i: nat, rank: nat)
    requires |s'.runs| == |s.runs| && s'.now == s.now && Closer(s', t, i, rank)
    ensures Closer(s, t, i, rank)
  {
  }

  lemma ClaimAdvances(s: State, i: nat)
    requires i < |s.runs|
    ensures s.runs[i].stage.ProbeClaimed? ==> Closer(s, AfterProbeClaim(s, i), i, 18)
    ensures s.runs[i].stage.FinalClaimed? ==> Closer(s, AfterFinalClaim(s, i, true), i, 10)
  {
    hide Closer, End, ChooseMode, Dispatch, Still;
    var r := s.runs[i];
    EndRank(s, i, r.AbortedOutcome(), 18);
    EndRank(s, i, Failed(TargetChanged), 18);
    EndRank(s, i, r.AbortedOutcome(), 10);
    EndRank(s, i, Failed(TargetChanged), 10);
    if r.stage.ProbeClaimed? {
      var s' := s.(runs := s.runs[i := r.(authorized := true)]);
      ChooseRank(s', i);
      CloserVia(s, s', ChooseMode(s', i), i, 18);
    }
    if r.stage.FinalClaimed? {
      DispatchRank(s, i, r.stage.mode, r.stage.prompt);
      CloserThan(s, Dispatch(s, i, r.stage.mode, r.stage.prompt, true), i, 1, 10);
    }
  }

  lemma NoPromptRank(s: State, i: nat, result: Readiness, rank: nat)
    requires i < |s.runs| && rank > 0
    ensures Closer(s, NoPrompt(s, i, result), i, rank) && Closer(s, EndUnlessAborted(s, i, Failed(TargetChanged)), i, rank)
  {
    hide Closer, End;
    EndRank(s, i, s.runs[i].AbortedOutcome(), rank);
    EndRank(s, i, Failed(TerminalClosed), rank);
    EndRank(s, i, Failed(IntegrationUnavailable), rank);
    EndRank(s, i, Failed(TerminalBusy), rank);
    EndRank(s, i, Failed(TargetChanged), rank);
  }

  lemma SendRank(s: State, i: nat)
    requires i < |s.runs|
    ensures Closer(s, SendProbe(s, i), i, 16)
  {
    hide Closer, NoPrompt, EndUnlessAborted, Still, Usable, State.At, State.Write;
    var r := s.runs[i];
    var s' := Reusable(s, r.remote).1;
    ReusableSame(s, r.remote);
    NoPromptRank(s', i, NotReady, 16);
    AtRank(s', i, Probed(s.w.Keyboard(), false), 16);
    var left := Min(PROBE_WAIT_MS, r.DeadlineAt() - s.now);
    if left > 0 {
      AtRank(s', i, Probing(s.w.Keyboard(), s.now + left), 16);
      CloserWritten(s', s'.At(i, Probing(s.w.Keyboard(), s.now + left)), i, 16, Probe(i, s.w));
    }
    CloserVia(s, s', SendProbe(s, i), i, 16);
  }

  lemma WaitAdvances(s: State, i: nat)
    requires i < |s.runs| && s.runs[i].stage.Waited?
    ensures Closer(s, AfterWait(s, i, true), i, if s.runs[i].stage.goal.ForProbe? then 16 else 12)
  {
    hide Closer, NoPrompt, EndUnlessAborted, Prepare, SendProbe, RememberProof;
    var r := s.runs[i];
    var rank := if r.stage.goal.ForProbe? then 16 else 12;
    NoPromptRank(s, i, r.stage.result, rank);
    PrepareRank(s, i, Integrated);
    CloserThan(s, Prepare(s, i, Integrated, true), i, 1, rank);
    PrepareRank(s, i, Sentinel);
    CloserThan(s, Prepare(s, i, Sentinel, true), i, 1, rank);
    SendRank(s, i);
    var s' := RememberProof(s, r.remote);
    RememberedSame(s, r.remote);
    PrepareRank(s', i, Sentinel);
    CloserVia(s, s', Prepare(s', i, Sentinel, true), i, 1);
    CloserThan(s, Prepare(s', i, Sentinel, true), i, 1, rank);
  }

  lemma ProbeAdvances(s: State, i: nat)
    requires i < |s.runs| && s.runs[i].stage.Probed?
    ensures Closer(s, AfterProbe(s, i), i, 14)
  {
    hide Closer, End, Wait;
    var r := s.runs[i];
    var s' := s.(proof := None);
    EndRank(s, i, r.AbortedOutcome(), 14);
    EndRank(s, i, Failed(TargetChanged), 14);
    WaitRank(s, i, ForCommand(r.stage.keyboard), 14);
    EndRank(s', i, Failed(TerminalClosed), 14);
    EndRank(s', i, Failed(TargetChanged), 14);
    EndRank(s', i, Failed(ShellProbeFailed), 14);
    CloserVia(s, s', End(s', i, Failed(TerminalClosed)), i, 14);
    CloserVia(s, s', End(s', i, Failed(TargetChanged)), i, 14);
    CloserVia(s, s', End(s', i, Failed(ShellProbeFailed)), i, 14);
  }

  lemma {:induction false} RunGoesOn(s: State, i: nat) returns (events: seq<Event>)
    requires Safe(s) && i < |s.runs| && forall j :: 0 <= j < |s.runs| && j != i ==> s.runs[j].stage.Settled?
    ensures forall k :: 0 <= k < |events| ==> events[k].On?
    ensures var t := Execute(s, events); t.now == s.now && Legal(t, Tick(s.now + 1))
    decreases Rank(s.runs[i], s.now)
  {
    hide Safe, JobStep, PreflightStep, Rank, NextOf;
    events := [];
    RankOrFree(s.runs[i], s.now);
    if Rank(s.runs[i], s.now) > 0 {
      var e := NextOf(s.runs[i], s.now);
      var t := Step(s, On(i, e));
      if s.runs[i].stage.Running? { JobAdvances(s, i); } else { PreflightAdvances(s, i); }
      StepSafe(s, On(i, e));
      forall j | 0 <= j < |t.runs| && j != i ensures t.runs[j].stage.Settled? { StepKeeps(s, On(i, e), j); }
      var rest := RunGoesOn(t, i);
      events := [On(i, e)] + rest;
      assert events[1..] == rest;
    }
  }

  lemma RankOrFree(r: Run, now: int)
    ensures Rank(r, now) == 0 <==> MayReach(r, now, now + 1)
  {
  }

  /** The clock is never stuck: from every state that can be reached, finitely many timers
      that fire and awaits that are answered let time go on. */
  lemma TimeGoesOn(s: State) returns (events: seq<Event>)
    requires Safe(s)
    ensures forall k :: 0 <= k < |events| ==> events[k].On?
    ensures var t := Execute(s, events); t.now == s.now && Legal(t, Tick(s.now + 1))
  {
    hide Step, MayReach, Evidence, Tallied, JobKnown;
    if i :| 0 <= i < |s.runs| && !s.runs[i].stage.Settled? {
      forall j | 0 <= j < |s.runs| && j != i ensures s.runs[j].stage.Settled? { OthersSettled(s, i, j); }
      events := RunGoesOn(s, i);
    } else {
      events := [];
      forall i | 0 <= i < |s.runs| ensures MayReach(s.runs[i], s.now, s.now + 1) { SettledIsFree(s.runs[i], s.now); }
    }
  }

  lemma SettledIsFree(r: Run, now: int)
    requires r.stage.Settled?
    ensures MayReach(r, now, now + 1)
  {
  }

  // ------------------------------------------------------------ timers are passive

  /** A timeout is reported only when the command has had its time, not counting what
      it waited for a password, or when the reporting cap has passed; and no timer ever
      writes to the terminal or interrupts anything. */
  lemma TimersArePassive(s: State, i: nat, timer: Timer)
    requires i < |s.runs| && s.runs[i].stage.Running?
    ensures var t := Step(s, On(i, Alarm(timer))); var r := s.runs[i];
      && t.log == s.log
      && (t.runs[i].stage.Running? ==> t.runs[i].stage.job.cause == r.stage.job.cause)
      && (t.runs[i].stage.Settled? && t.runs[i].stage.outcome == Failed(Timeout) ==>
            r.o.timeout <= s.now - r.startedAt - r.stage.job.paused || r.stage.job.capAt <= s.now)
  {
  }
}
