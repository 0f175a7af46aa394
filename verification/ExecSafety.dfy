/** What every interleaving of runs, aborts, terminal events, replies and timers keeps:
    one run at a time, one line per run typed only into the prompt that was accepted, one
    outcome per run, and no control byte that nobody asked for. */
module ExecSafety {
  import opened Basics
  import opened ExecModel
  import ExecHistory

  // ------------------------------------------------------------ what a run has written

  datatype Counts = Counts(lines: nat, probes: nat, gestures: nat, keys: nat) {
    function Add(e: Entry): Counts {
      match e
      case Line(_, _, _, _) => this.(lines := lines + 1)
      case Probe(_, _) => this.(probes := probes + 1)
      case Key(_, User) => this.(gestures := gestures + 1)
      case Key(_, Tui) => this.(keys := keys + 1)
    }
  }

  const ZERO := Counts(0, 0, 0, 0)

  function CountOf(log: seq<Entry>, i: nat): Counts {
    if log == [] then ZERO
    else
      var c, e := CountOf(log[..|log| - 1], i), log[|log| - 1];
      if e.run == i then c.Add(e) else c
  }

  lemma CountLast(log: seq<Entry>, e: Entry, i: nat)
    ensures CountOf(log + [e], i) == if e.run == i then CountOf(log, i).Add(e) else CountOf(log, i)
  {
    assert (log + [e])[..|log|] == log;
  }

  lemma {:induction false} CountNone(log: seq<Entry>, i: nat)
    requires forall k :: 0 <= k < |log| ==> log[k].run < i
    ensures CountOf(log, i) == ZERO
  {
    if log != [] { CountNone(log[..|log| - 1], i); }
  }

  // ------------------------------------------------------------ what holds of one run

  /** Errors whose note says that nothing was executed, before a terminal is gone. */
  predicate SaysNothing(o: Outcome) {
    o.exit.None? && o.error in {Some(Unsafe), Some(TerminalBusy), Some(IntegrationUnavailable),
                                Some(ShellProbeFailed), Some(TargetChanged)}
  }

  /** Outcomes that only a dispatched line can have. */
  predicate SaysTyped(o: Outcome) {
    o.exit.Some? || o.error in {Some(Timeout), Some(NotObserved), Some(Interrupted), Some(InterruptFailed)}
  }

  /** The interrupt protocol of a live job. */
  predicate JobOk(job: Job) {
    && (job.pending <==> job.cause == Some(User))
    && (job.confirmed ==> job.pending && job.graceAt.Some?)
    && (job.graceAt.Some? ==> job.cause.Some? && job.ladder.None?)
    && (job.pending ==> job.ladder.None?)
    && (job.ladder.Some? ==> job.cause == Some(Tui))
    && (job.cause == Some(Tui) ==> job.ladder.Some? || job.graceAt.Some?)
    && (job.completions != [] ==> job.pending && !job.confirmed)
    && job.buffered == (if job.completions == [] then None else Some(job.completions[0]))
    && (forall k | 0 <= k < |job.completions| ::
          job.completions[k].exit.Some? && job.completions[k].error == Some(Interrupted))
  }

  /** A reported completion is the first one observed; after a user's interrupt it is
      reported only once the SIGINT write was confirmed. */
  predicate CompletionOk(o: Outcome, job: Job) {
    o.exit.Some? ==>
      && job.completions != [] && o == job.completions[0]
      && (job.cause == Some(User) ==> job.confirmed)
      && o.error == (if job.cause.Some? then Some(Interrupted) else None)
  }

  predicate KeysOk(job: Job, c: Counts) {
    && c.gestures == (if job.pending then 1 else 0)
    && c.keys <= LADDER_LENGTH
    && (job.cause != Some(Tui) ==> c.keys == 0)
    && (job.ladder.Some? ==> c.keys == job.ladder.value.keys)
  }

  predicate StageOk(stage: Stage, c: Counts) {
    match stage
    case Running(job) => c.lines == 1 && c.probes <= 1 && JobOk(job) && KeysOk(job, c)
    case Settled(o, last) =>
      && c.probes <= 1
      && c.lines == (if last.Some? && o != Failed(TargetChanged) then 1 else 0)
      && (SaysNothing(o) ==> c.lines == 0)
      && (SaysTyped(o) ==> c.lines == 1 && last.Some?)
      && (o.exit.Some? ==> last.Some? && CompletionOk(o, last.value))
      && (c.lines == 0 ==> c.gestures == 0 && c.keys == 0)
      && c.gestures <= 1 && c.keys <= LADDER_LENGTH && (c.gestures == 0 || c.keys == 0)
    case Waiting(goal, _, _, _) => c == ZERO.(probes := c.probes) && c.probes <= if goal.ForCommand? then 1 else 0
    case Waited(goal, _) => c == ZERO.(probes := c.probes) && c.probes <= if goal.ForCommand? then 1 else 0
    case ProbeClaim => c == ZERO
    case ProbeClaimed(_) => c == ZERO
    case _ => c == ZERO.(probes := c.probes) && c.probes <= 1
  }

  // ------------------------------------------------------------ what holds of the session

  ghost predicate Alone(s: State) {
    && (forall i :: 0 <= i < |s.runs| && !s.runs[i].Owns() ==> s.runs[i].stage.Settled?)
    && (forall i :: 0 <= i < |s.runs| && s.runs[i].Owns() ==> s.reservation == Some(s.runs[i].o.approval))
    && (forall i, j :: 0 <= i < j < |s.runs| ==> !s.runs[i].Owns() || !s.runs[j].Owns())
    && (s.reservation.Some? ==> exists i :: 0 <= i < |s.runs| && s.runs[i].Owns())
  }

  ghost predicate JobKnown(s: State) {
    && (s.job.Some? ==> s.job.value < |s.runs| && s.runs[s.job.value].stage.Running?)
    && (forall i :: 0 <= i < |s.runs| && s.runs[i].stage.Running? ==> s.job == Some(i))
  }

  /** Every typed line went into the prompt that had been accepted for it. */
  ghost predicate Evidence(s: State) {
    forall k :: 0 <= k < |s.log| ==>
      && s.log[k].run < |s.runs|
      && (s.log[k].Line? ==> PromptBound(s.runs[s.log[k].run], s.log[k].mode, s.log[k].prompt, s.log[k].at))
  }

  ghost predicate Tallied(s: State) {
    forall i :: 0 <= i < |s.runs| ==> StageOk(s.runs[i].stage, CountOf(s.log, i))
  }

  ghost predicate Safe(s: State) { Alone(s) && JobKnown(s) && Evidence(s) && Tallied(s) }

  // ------------------------------------------------------------ a step of one run

  function Added(s: State, t: State): seq<Entry> {
    if |t.log| > |s.log| then [t.log[|s.log|]] else []
  }

  /** Who a run is does not change after it has begun. */
  predicate Kin(r: Run, r': Run) {
    r' == r.(stage := r'.stage, authorized := r'.authorized, aborted := r'.aborted)
  }

  function CountNext(c: Counts, added: seq<Entry>): Counts
    requires |added| <= 1
  {
    if added == [] then c else c.Add(added[0])
  }

  /** What a step of run i may do: move that run, and write at most one thing for it. */
  ghost predicate Moves(s: State, t: State, i: nat) {
    && i < |s.runs| && |t.runs| == |s.runs| && t.now == s.now && t.w == s.w && t.reservation == s.reservation
    && (forall j :: 0 <= j < |s.runs| && j != i ==> t.runs[j] == s.runs[j])
    && Kin(s.runs[i], t.runs[i])
    && (s.runs[i].stage.Settled? ==> t.runs[i].stage == s.runs[i].stage)
    && t.job == (if t.runs[i].stage.Running? then Some(i) else if s.job == Some(i) then None else s.job)
    && t.log == s.log + Added(s, t)
    && (forall k :: 0 <= k < |Added(s, t)| ==> Wrote(t.runs[i], Added(s, t)[k], i, s.w))
  }

  predicate Wrote(r: Run, e: Entry, i: nat, w: World) {
    e.run == i && (e.Line? ==> e.at == w && PromptBound(r, e.mode, e.prompt, e.at))
  }

  /** The same, with the run's counts. */
  ghost predicate Counted(s: State, t: State, i: nat, c: Counts) {
    Moves(s, t, i) && StageOk(t.runs[i].stage, CountNext(c, Added(s, t)))
  }

  lemma Unmoved(s: State, i: nat, c: Counts)
    requires i < |s.runs| && StageOk(s.runs[i].stage, c)
    requires s.job == (if s.runs[i].stage.Running? then Some(i) else if s.job == Some(i) then None else s.job)
    ensures Counted(s, s, i, c)
  {
    assert s.log + [] == s.log;
  }

  /** A move that writes nothing. */
  lemma Quiet(s: State, t: State, i: nat, c: Counts)
    requires i < |s.runs| && |t.runs| == |s.runs| && !s.runs[i].stage.Settled?
    requires t == s.At(i, t.runs[i].stage).(job := t.job, proof := t.proof)
    requires t.job == (if t.runs[i].stage.Running? then Some(i) else if s.job == Some(i) then None else s.job)
    requires StageOk(t.runs[i].stage, c)
    ensures Counted(s, t, i, c)
  {
    assert s.log + [] == s.log;
  }

  /** A move that writes one entry. */
  lemma Noisy(s: State, t: State, i: nat, c: Counts, e: Entry)
    requires i < |s.runs| && |t.runs| == |s.runs| && !s.runs[i].stage.Settled?
    requires t == s.At(i, t.runs[i].stage).(job := t.job, proof := t.proof, log := s.log + [e])
    requires t.job == (if t.runs[i].stage.Running? then Some(i) else if s.job == Some(i) then None else s.job)
    requires StageOk(t.runs[i].stage, c.Add(e)) && Wrote(t.runs[i], e, i, s.w)
    ensures Counted(s, t, i, c)
  {
  }

  // ------------------------------------------------------------ steps of a live job

  /** The run is live, and this is its job. */
  ghost predicate Live(s: State, i: nat, c: Counts) {
    i < |s.runs| && s.runs[i].stage.Running? && s.job == Some(i) && StageOk(s.runs[i].stage, c)
  }

  lemma FinishMoves(s: State, i: nat, c: Counts, job: Job, outcome: Outcome)
    requires Live(s, i, c) && !SaysNothing(outcome) && (outcome.exit.Some? ==> CompletionOk(outcome, job))
    ensures Counted(s, Finish(Update(s, i, job), i, outcome), i, c)
  {
    hide CompletionOk;
    Quiet(s, Finish(Update(s, i, job), i, outcome), i, c);
  }

  lemma FinishMovesAsIs(s: State, i: nat, c: Counts, outcome: Outcome)
    requires Live(s, i, c) && !SaysNothing(outcome) && outcome.exit.None?
    ensures Counted(s, Finish(s, i, outcome), i, c)
  {
    hide CompletionOk;
    Quiet(s, Finish(s, i, outcome), i, c);
  }

  lemma UpdateMoves(s: State, i: nat, c: Counts, job: Job)
    requires Live(s, i, c) && JobOk(job) && KeysOk(job, c)
    ensures Counted(s, Update(s, i, job), i, c)
  {
    hide JobOk;
    Quiet(s, Update(s, i, job), i, c);
  }

  lemma WriteMoves(s: State, i: nat, c: Counts, job: Job, cause: Cause)
    requires Live(s, i, c) && JobOk(job) && KeysOk(job, c.Add(Key(i, cause)))
    ensures Counted(s, Update(s, i, job).Write(Key(i, cause)), i, c)
  {
    hide JobOk;
    Noisy(s, Update(s, i, job).Write(Key(i, cause)), i, c, Key(i, cause));
  }

  lemma CompleteMoves(s: State, i: nat, c: Counts, exit: int)
    requires Live(s, i, c)
    ensures Counted(s, Complete(s, i, exit), i, c)
  {
    hide Counted, Finish;
    var job := s.runs[i].stage.job;
    var outcome := Outcome(Some(exit), if job.cause.Some? then Some(Interrupted) else None, false);
    var seen := job.(completions := job.completions + [outcome]);
    if job.cause == Some(User) && job.pending && !job.confirmed {
      UpdateMoves(s, i, c, if job.buffered.None? then seen.(buffered := Some(outcome)) else seen);
    } else {
      FinishMoves(s, i, c, seen, outcome);
    }
  }

  lemma InterruptMoves(s: State, i: nat, c: Counts, thrown: bool)
    requires Live(s, i, c)
    ensures Counted(s, UserInterrupt(s, i, thrown), i, c) && Counted(s, TuiInterrupt(s, i), i, c)
  {
    hide Counted, Finish;
    var job := s.runs[i].stage.job;
    Unmoved(s, i, c);
    if !(job.pending || job.ladder.Some? || job.graceAt.Some?) {
      var asked := job.(pending := true, cause := Some(User), gestureAt := Some(s.now));
      FinishMoves(s, i, c, asked, Failed(InterruptFailed));
      WriteMoves(s, i, c, asked.(deliveryAt := Some(s.now + USER_INTERRUPT_DELIVERY_TIMEOUT_MS)), User);
      WriteMoves(s, i, c, job.(ladder := Some(Ladder(1, None)), cause := Some(Tui)), Tui);
    }
  }

  lemma SigintMoves(s: State, i: nat, c: Counts, delivered: bool)
    requires Live(s, i, c)
    ensures Counted(s, SigintAnswered(s, i, delivered), i, c)
  {
    hide Counted, Finish;
    var job := s.runs[i].stage.job;
    Unmoved(s, i, c);
    FinishMovesAsIs(s, i, c, Failed(InterruptFailed));
    if job.pending && !job.confirmed && delivered {
      var known := job.(confirmed := true, deliveryAt := None);
      if known.buffered.Some? {
        FinishMoves(s, i, c, known.(buffered := None), known.buffered.value);
      } else {
        UpdateMoves(s, i, c, ArmGrace(known, s.now));
      }
    }
  }

  lemma LadderMoves(s: State, i: nat, c: Counts)
    requires Live(s, i, c)
    ensures Counted(s, KeyAnswered(s, i), i, c) && Counted(s, LadderStep(s, i), i, c)
  {
    hide Counted, Finish;
    var job := s.runs[i].stage.job;
    Unmoved(s, i, c);
    FinishMovesAsIs(s, i, c, Failed(InterruptFailed));
    if job.ladder.Some? {
      UpdateMoves(s, i, c, job.(ladder := Some(job.ladder.value.(stepAt := Some(s.now + LADDER_STEP_MS)))));
      UpdateMoves(s, i, c, ArmGrace(job.(ladder := None), s.now));
      if job.ladder.value.keys < LADDER_LENGTH {
        WriteMoves(s, i, c, job.(ladder := Some(Ladder(job.ladder.value.keys + 1, None))), Tui);
      }
    }
  }

  lemma ReportMoves(s: State, i: nat, c: Counts, block: nat, ours: bool)
    requires Live(s, i, c)
    ensures Counted(s, BlockStarted(s, i, block, ours), i, c) && Counted(s, Refresh(s, i), i, c)
  {
    hide Counted, Finish, ClassifyStall;
    var job := s.runs[i].stage.job;
    Unmoved(s, i, c);
    FinishMovesAsIs(s, i, c, Failed(NotObserved));
    UpdateMoves(s, i, c, job.(bound := Some(block)));
    UpdateMoves(s, i, c, job.(foreign := job.foreign + 1));
    var next := job.(refreshAt := s.now + CARD_REFRESH_MS);
    UpdateMoves(s, i, c, next);
    UpdateMoves(s, i, c, next.(
      paused := if job.stall == Some(Password) then job.paused + (s.now - job.lastTick) else job.paused,
      lastTick := s.now,
      stall := ClassifyStall(job, s.w, s.now)));
  }

  /** Proofs and the terminal picture do not matter to a move. */
  lemma Reproved(s: State, proof: Option<Proof>, job: Job, t: State, i: nat, c: Counts)
    requires Live(s, i, c) && JobOk(job) && KeysOk(job, c)
    requires Counted(Update(s.(proof := proof), i, job), t, i, c)
    ensures Counted(s, t, i, c)
  {
    hide JobOk, KeysOk, StageOk;
  }

  lemma TokenMoves(s: State, i: nat, c: Counts, exit: int, ours: bool)
    requires Live(s, i, c)
    ensures Counted(s, TokenSeen(s, i, exit, ours), i, c)
  {
    hide Counted, Complete;
    var job := s.runs[i].stage.job;
    if job.mode.Integrated? || !ours {
      Unmoved(s, i, c);
    } else {
      var renewed := if s.runs[i].remote.Some? && s.proof.Some? then Some(s.proof.value.(provenAt := s.now)) else s.proof;
      var s' := Update(s.(proof := renewed), i, job.(proved := true));
      CompleteMoves(s', i, c, exit);
      Reproved(s, renewed, job.(proved := true), Complete(s', i, exit), i, c);
    }
  }

  lemma FireMoves(s: State, i: nat, c: Counts, timer: Timer)
    requires Live(s, i, c)
    ensures Counted(s, Fire(s, i, timer), i, c) && Fire(s, i, timer).log == s.log
  {
    hide Counted;
    var r, job := s.runs[i], s.runs[i].stage.job;
    Unmoved(s, i, c);
    FinishMovesAsIs(s, i, c, Failed(NotObserved));
    FinishMovesAsIs(s, i, c, Failed(InterruptFailed));
    FinishMovesAsIs(s, i, c, Failed(Interrupted));
    FinishMovesAsIs(s, i, c, Failed(Timeout));
    UpdateMoves(s, i, c, job.(bindAt := None));
    UpdateMoves(s, i, c, job.(deliveryAt := None));
    UpdateMoves(s, i, c, job.(deadlineAt := None));
    UpdateMoves(s, i, c, job.(deadlineAt := Some(s.now + (r.o.timeout - (s.now - r.startedAt - job.paused)))));
  }

  lemma JobMoves(s: State, i: nat, c: Counts, e: RunEvent)
    requires Live(s, i, c)
    ensures Counted(s, JobStep(s, i, e), i, c)
  {
    hide Counted, UserInterrupt, TuiInterrupt, SigintAnswered, Finish, KeyAnswered, LadderStep, BlockStarted, Complete,
      TokenSeen, Refresh, Fire, JobOk, KeysOk;
    var job := s.runs[i].stage.job;
    Unmoved(s, i, c);
    FinishMovesAsIs(s, i, c, Failed(TerminalClosed));
    match e
    case Gesture(approval, thrown) => InterruptMoves(s, i, c, thrown);
    case SigintReply(delivered) => SigintMoves(s, i, c, delivered);
    case KeyReply => LadderMoves(s, i, c);
    case Rung => LadderMoves(s, i, c);
    case Started(block, ours) => ReportMoves(s, i, c, block, ours);
    case Ended(block, exit) => CompleteMoves(s, i, c, exit);
    case Token(exit, mine) => TokenMoves(s, i, c, exit, mine);
    case AlternateScreen => AlternateMoves(s, i, c);
    case Beat => ReportMoves(s, i, c, 0, false);
    case Alarm(timer) => FireMoves(s, i, c, timer);
    case _ =>
  }

  lemma AlternateMoves(s: State, i: nat, c: Counts)
    requires Live(s, i, c)
    ensures var s' := Update(s, i, s.runs[i].stage.job.(stall := Some(Hijacked)));
      Counted(s, TuiInterrupt(s', i), i, c)
  {
    hide Counted, TuiInterrupt;
    var job := s.runs[i].stage.job.(stall := Some(Hijacked));
    var s' := Update(s, i, job);
    InterruptMoves(s', i, c, false);
    assert Update(s.(proof := s.proof), i, job) == s';
    Reproved(s, s.proof, job, TuiInterrupt(s', i), i, c);
  }

  // ------------------------------------------------------------ steps before dispatch

  /** The run has no job yet, or any more. */
  ghost predicate Unlive(s: State, i: nat, c: Counts) {
    i < |s.runs| && !s.runs[i].stage.Running? && s.job != Some(i) && StageOk(s.runs[i].stage, c)
  }

  /** Nothing has been typed for the run but perhaps its probe. */
  ghost predicate Early(s: State, i: nat, c: Counts) {
    Unlive(s, i, c) && s.job.None? && !s.runs[i].stage.Settled? && c == ZERO.(probes := c.probes) && c.probes <= 1
  }

  predicate BeforeLine(o: Outcome) { o.exit.None? && !SaysTyped(o) }

  lemma EndMoves(s: State, i: nat, c: Counts, outcome: Outcome)
    requires Early(s, i, c) && BeforeLine(outcome)
    ensures Counted(s, End(s, i, outcome), i, c)
  {
    Quiet(s, End(s, i, outcome), i, c);
  }

  lemma AbortedIsEarly(r: Run)
    ensures BeforeLine(r.AbortedOutcome())
  {
  }

  /** Proofs, and the run's own authorization, do not matter to a move. */
  lemma Carried(s: State, s': State, t: State, i: nat, c: Counts)
    requires i < |s.runs| && !s.runs[i].stage.Settled? && |s'.runs| == |s.runs|
    requires Kin(s.runs[i], s'.runs[i])
    requires s' == s.(proof := s'.proof, runs := s.runs[i := s'.runs[i]])
    requires Counted(s', t, i, c)
    ensures Counted(s, t, i, c)
  {
    hide StageOk;
  }

  lemma WaitMoves(s: State, i: nat, c: Counts, goal: Goal)
    requires Early(s, i, c) && c.probes <= (if goal.ForCommand? then 1 else 0)
    ensures Counted(s, Wait(s, i, goal), i, c)
  {
    Quiet(s, Wait(s, i, goal), i, c);
  }

  lemma ChooseMoves(s: State, i: nat, c: Counts)
    requires Early(s, i, c) && c.probes == 0
    ensures Counted(s, ChooseMode(s, i), i, c)
  {
    hide Counted, Wait, End;
    var r := s.runs[i];
    EndMoves(s, i, c, Failed(TargetChanged));
    WaitMoves(s, i, c, if r.remote.Some? then ForProbe else if r.o.nonceCompletion then ForSentinel else ForIntegrated);
  }

  lemma NoPromptMoves(s: State, i: nat, c: Counts, result: Readiness)
    requires Early(s, i, c)
    ensures Counted(s, NoPrompt(s, i, result), i, c)
  {
    hide Counted, End;
    AbortedIsEarly(s.runs[i]);
    EndMoves(s, i, c, s.runs[i].AbortedOutcome());
    EndMoves(s, i, c, Failed(TerminalClosed));
    EndMoves(s, i, c, Failed(IntegrationUnavailable));
    EndMoves(s, i, c, Failed(TerminalBusy));
  }

  lemma EndOrAbortMoves(s: State, i: nat, c: Counts, outcome: Outcome)
    requires Early(s, i, c) && BeforeLine(outcome)
    ensures Counted(s, EndUnlessAborted(s, i, outcome), i, c)
  {
    hide Counted, End;
    AbortedIsEarly(s.runs[i]);
    EndMoves(s, i, c, s.runs[i].AbortedOutcome());
    EndMoves(s, i, c, outcome);
  }

  /** The only step that types a line does so with everything rechecked. */
  lemma DispatchMoves(s: State, i: nat, c: Counts, mode: Mode, prompt: Prompt, canWrite: bool)
    requires Early(s, i, c)
    ensures Counted(s, Dispatch(s, i, mode, prompt, canWrite), i, c)
  {
    hide Counted, End, PromptBound, Finish;
    var r := s.runs[i];
    AbortedIsEarly(r);
    EndMoves(s, i, c, r.AbortedOutcome());
    EndMoves(s, i, c, Failed(TerminalBusy));
    EndMoves(s, i, c, Failed(TargetChanged));
    if r.Remaining(s.now) > 0 && PromptBound(r, mode, prompt, s.w) && r.aborted.None? {
      TypeMoves(s, i, c, mode, prompt);
      RefusedMoves(s, i, c, mode);
    }
  }

  lemma TypeMoves(s: State, i: nat, c: Counts, mode: Mode, prompt: Prompt)
    requires Early(s, i, c) && PromptBound(s.runs[i], mode, prompt, s.w)
    ensures var live := s.At(i, Running(NewJob(s.runs[i], mode, s.now))).(job := Some(i));
      Counted(s, live.Write(Line(i, mode, prompt, s.w)), i, c)
  {
    var live := s.At(i, Running(NewJob(s.runs[i], mode, s.now))).(job := Some(i));
    Noisy(s, live.Write(Line(i, mode, prompt, s.w)), i, c, Line(i, mode, prompt, s.w));
  }

  /** A target that is refused at the last moment leaves nothing typed. */
  lemma RefusedMoves(s: State, i: nat, c: Counts, mode: Mode)
    requires Early(s, i, c)
    ensures var live := s.At(i, Running(NewJob(s.runs[i], mode, s.now))).(job := Some(i));
      Counted(s, Finish(live, i, Failed(TargetChanged)), i, c)
  {
    var live := s.At(i, Running(NewJob(s.runs[i], mode, s.now))).(job := Some(i));
    var t := Finish(live, i, Failed(TargetChanged));
    assert t.runs[i].stage == Settled(Failed(TargetChanged), Some(NewJob(s.runs[i], mode, s.now)));
    Settles(s, t, i, c);
  }

  lemma Settles(s: State, t: State, i: nat, c: Counts)
    requires Early(s, i, c) && |t.runs| == |s.runs| && t.runs[i].stage.Settled? && StageOk(t.runs[i].stage, c)
    requires t == s.(runs := s.runs[i := s.runs[i].(stage := t.runs[i].stage)], job := None, proof := t.proof)
    ensures Counted(s, t, i, c)
  {
    assert s.log + [] == s.log;
  }

  lemma PrepareMoves(s: State, i: nat, c: Counts, mode: Mode, canWrite: bool)
    requires Early(s, i, c)
    ensures Counted(s, Prepare(s, i, mode, canWrite), i, c)
  {
    hide Counted, End, Dispatch;
    var r := s.runs[i];
    AbortedIsEarly(r);
    EndMoves(s, i, c, r.AbortedOutcome());
    EndMoves(s, i, c, Failed(TerminalClosed));
    EndMoves(s, i, c, Failed(Unsafe));
    EndMoves(s, i, c, Failed(TargetChanged));
    DispatchMoves(s, i, c, mode, PromptOf(s.w), canWrite);
    Quiet(s, s.At(i, FinalClaim(mode, PromptOf(s.w))), i, c);
  }

  lemma ProbeMoves(s: State, i: nat, c: Counts)
    requires Early(s, i, c) && c.probes == 0
    ensures Counted(s, SendProbe(s, i), i, c)
  {
    hide Counted, End, EndUnlessAborted, NoPrompt, Reusable;
    var r := s.runs[i];
    var s1 := Reusable(s, r.remote).1;
    ReusableSame(s, r.remote);
    NoPromptMoves(s1, i, c, NotReady);
    EndOrAbortMoves(s1, i, c, Failed(TargetChanged));
    Quiet(s1, s1.At(i, Probed(s.w.Keyboard(), false)), i, c);
    var asked := s1.At(i, Probing(s.w.Keyboard(), s.now + Min(PROBE_WAIT_MS, r.DeadlineAt() - s.now))).Write(Probe(i, s.w));
    Noisy(s1, asked, i, c, Probe(i, s.w));
    Carried(s, s1, SendProbe(s, i), i, c);
  }

  lemma ReusableSame(s: State, remote: Option<nat>)
    ensures Reusable(s, remote).1 == s.(proof := Reusable(s, remote).1.proof)
  {
  }

  lemma AfterWaitMoves(s: State, i: nat, c: Counts, canWrite: bool)
    requires Early(s, i, c) && s.runs[i].stage.Waited?
    ensures Counted(s, AfterWait(s, i, canWrite), i, c)
  {
    hide Counted, EndUnlessAborted, NoPrompt, Prepare, SendProbe;
    var r := s.runs[i];
    NoPromptMoves(s, i, c, r.stage.result);
    EndOrAbortMoves(s, i, c, Failed(TargetChanged));
    match r.stage.goal
    case ForIntegrated => PrepareMoves(s, i, c, Integrated, canWrite);
    case ForSentinel => PrepareMoves(s, i, c, Sentinel, canWrite);
    case ForProbe => ProbeMoves(s, i, c);
    case ForCommand(keyboard) =>
      var s1 := RememberProof(s, r.remote);
      PrepareMoves(s1, i, c, Sentinel, canWrite);
      Carried(s, s1, Prepare(s1, i, Sentinel, canWrite), i, c);
  }

  lemma AfterProbeMoves(s: State, i: nat, c: Counts)
    requires Early(s, i, c) && s.runs[i].stage.Probed?
    ensures Counted(s, AfterProbe(s, i), i, c)
  {
    hide Counted, End, Wait;
    var r := s.runs[i];
    var s1 := s.(proof := None);
    AbortedIsEarly(r);
    EndMoves(s, i, c, r.AbortedOutcome());
    EndMoves(s, i, c, Failed(TargetChanged));
    WaitMoves(s, i, c, ForCommand(r.stage.keyboard));
    EndMoves(s1, i, c, Failed(TerminalClosed));
    EndMoves(s1, i, c, Failed(TargetChanged));
    EndMoves(s1, i, c, Failed(ShellProbeFailed));
    Carried(s, s1, End(s1, i, Failed(TerminalClosed)), i, c);
    Carried(s, s1, End(s1, i, Failed(TargetChanged)), i, c);
    Carried(s, s1, End(s1, i, Failed(ShellProbeFailed)), i, c);
  }

  lemma AfterClaimMoves(s: State, i: nat, c: Counts, canWrite: bool)
    requires Early(s, i, c)
    ensures s.runs[i].stage.ProbeClaimed? ==> Counted(s, AfterProbeClaim(s, i), i, c)
    ensures s.runs[i].stage.FinalClaimed? ==> Counted(s, AfterFinalClaim(s, i, canWrite), i, c)
  {
    hide Counted, End, ChooseMode, Dispatch;
    var r := s.runs[i];
    AbortedIsEarly(r);
    EndMoves(s, i, c, r.AbortedOutcome());
    EndMoves(s, i, c, Failed(TargetChanged));
    if r.stage.ProbeClaimed? {
      var s1 := s.(runs := s.runs[i := r.(authorized := true)]);
      ChooseMoves(s1, i, c);
      Carried(s, s1, ChooseMode(s1, i), i, c);
    }
    if r.stage.FinalClaimed? { DispatchMoves(s, i, c, r.stage.mode, r.stage.prompt, canWrite); }
  }

  lemma TickMoves(s: State, i: nat, c: Counts)
    requires Early(s, i, c)
    ensures Counted(s, PromptTick(s, i), i, c)
  {
    hide PromptShown;
    Unmoved(s, i, c);
    if s.runs[i].stage.Waiting? && s.now >= s.runs[i].stage.tickAt { Quiet(s, PromptTick(s, i), i, c); }
  }

  /** Every step of a run before dispatch, except its finally block. */
  lemma PreflightMoves(s: State, i: nat, c: Counts, e: RunEvent)
    requires Early(s, i, c) && !e.Finally?
    ensures Counted(s, PreflightStep(s, i, e), i, c)
  {
    hide Counted, AfterProbeClaim, AfterWait, AfterProbe, AfterFinalClaim, PromptTick;
    var stage := s.runs[i].stage;
    Unmoved(s, i, c);
    match e
    case Claimed(granted) =>
      if stage.ProbeClaim? { Quiet(s, s.At(i, ProbeClaimed(granted)), i, c); }
      if stage.FinalClaim? { Quiet(s, s.At(i, FinalClaimed(stage.mode, stage.prompt, granted)), i, c); }
    case ClaimExpired =>
      if stage.ProbeClaim? { Quiet(s, s.At(i, ProbeClaimed(false)), i, c); }
      if stage.FinalClaim? { Quiet(s, s.At(i, FinalClaimed(stage.mode, stage.prompt, false)), i, c); }
    case Poll => TickMoves(s, i, c);
    case ProbeAnswered => if stage.Probing? { Quiet(s, s.At(i, Probed(stage.keyboard, true)), i, c); }
    case ProbeLost => if stage.Probing? { Quiet(s, s.At(i, Probed(stage.keyboard, false)), i, c); }
    case ProbeExpired => if stage.Probing? { Quiet(s, s.At(i, Probed(stage.keyboard, false)), i, c); }
    case Resume(canWrite) =>
      AfterClaimMoves(s, i, c, canWrite);
      if stage.Waited? { AfterWaitMoves(s, i, c, canWrite); }
      if stage.Probed? { AfterProbeMoves(s, i, c); }
    case _ =>
  }

  // ------------------------------------------------------------ every step keeps the session safe

  lemma MovesKeepAlone(s: State, t: State, i: nat)
    requires Alone(s) && JobKnown(s) && Moves(s, t, i)
    ensures Alone(t) && JobKnown(t)
  {
    assert forall j :: 0 <= j < |s.runs| ==> t.runs[j].Owns() == s.runs[j].Owns() && t.runs[j].o == s.runs[j].o;
    assert forall j :: 0 <= j < |s.runs| && !s.runs[j].stage.Settled? ==> s.runs[j].Owns();
    if s.reservation.Some? {
      var j :| 0 <= j < |s.runs| && s.runs[j].Owns();
      assert t.runs[j].Owns();
    }
  }

  lemma MovesKeepEvidence(s: State, t: State, i: nat)
    requires Evidence(s) && Moves(s, t, i)
    ensures Evidence(t)
  {
    hide PromptBound;
    assert forall k :: 0 <= k < |s.log| ==> t.log[k] == s.log[k];
    forall k | 0 <= k < |t.log|
      ensures t.log[k].run < |t.runs|
      ensures t.log[k].Line? ==> PromptBound(t.runs[t.log[k].run], t.log[k].mode, t.log[k].prompt, t.log[k].at)
    {
      if k < |s.log| {
        var j := s.log[k].run;
        if s.log[k].Line? { KinBound(s.runs[j], t.runs[j], s.log[k].mode, s.log[k].prompt, s.log[k].at); }
      } else {
        assert t.log[k] == Added(s, t)[0];
      }
    }
  }

  lemma KinBound(r: Run, r': Run, mode: Mode, prompt: Prompt, w: World)
    requires Kin(r, r')
    ensures PromptBound(r, mode, prompt, w) == PromptBound(r', mode, prompt, w)
  {
  }

  lemma MovesKeepTally(s: State, t: State, i: nat)
    requires Tallied(s) && Counted(s, t, i, CountOf(s.log, i))
    ensures Tallied(t)
  {
    hide StageOk, CountOf;
    forall j | 0 <= j < |t.runs| ensures StageOk(t.runs[j].stage, CountOf(t.log, j)) {
      if |t.log| > |s.log| {
        CountLast(s.log, t.log[|s.log|], j);
        assert Added(s, t)[0].run == i;
      } else {
        assert t.log == s.log;
      }
    }
  }

  lemma MovesKeepSafe(s: State, t: State, i: nat)
    requires Safe(s) && Counted(s, t, i, CountOf(s.log, i))
    ensures Safe(t)
  {
    hide Alone, JobKnown, Evidence, Tallied;
    MovesKeepAlone(s, t, i);
    MovesKeepEvidence(s, t, i);
    MovesKeepTally(s, t, i);
  }

  lemma RunStepMoves(s: State, i: nat, e: RunEvent)
    requires Safe(s) && i < |s.runs|
    ensures s.runs[i].stage.Running? ==> Counted(s, JobStep(s, i, e), i, CountOf(s.log, i))
    ensures !s.runs[i].stage.Running? && !e.Finally? ==>
      Counted(s, PreflightStep(s, i, e), i, CountOf(s.log, i))
  {
    hide Counted, JobStep, PreflightStep, CountOf;
    var c := CountOf(s.log, i);
    if s.runs[i].stage.Running? {
      JobMoves(s, i, c, e);
    } else if s.runs[i].stage.Settled? {
      Unmoved(s, i, c);
      if !e.Finally? { SettledStays(s, i, e); }
    } else if !e.Finally? {
      NoJob(s, i);
      PreflightMoves(s, i, c, e);
    }
  }

  lemma SettledStays(s: State, i: nat, e: RunEvent)
    requires i < |s.runs| && s.runs[i].stage.Settled? && !e.Finally?
    ensures PreflightStep(s, i, e) == s
  {
  }

  lemma NoJob(s: State, i: nat)
    requires Alone(s) && JobKnown(s) && i < |s.runs| && !s.runs[i].stage.Settled? && !s.runs[i].stage.Running?
    ensures s.job.None?
  {
    forall j | 0 <= j < |s.runs| && j != i ensures s.runs[j].stage.Settled? { OthersSettled(s, i, j); }
  }

  lemma OthersSettled(s: State, i: nat, j: nat)
    requires Alone(s) && i < |s.runs| && j < |s.runs| && i != j && !s.runs[i].stage.Settled?
    ensures s.runs[j].stage.Settled?
  {
    assert s.runs[i].Owns();
  }

  lemma FinallySafe(s: State, i: nat)
    requires Safe(s) && i < |s.runs| && !s.runs[i].stage.Running?
    ensures Safe(PreflightStep(s, i, Finally))
  {
    hide StageOk, CountOf, PromptBound;
    var t := PreflightStep(s, i, Finally);
    var r := s.runs[i];
    if r.stage.Settled? && r.Owns() {
      assert forall j :: 0 <= j < |s.runs| && j != i ==> t.runs[j] == s.runs[j] && !s.runs[j].Owns();
      assert t.reservation.None?;
      forall k | 0 <= k < |t.log| && t.log[k].Line?
        ensures PromptBound(t.runs[t.log[k].run], t.log[k].mode, t.log[k].prompt, t.log[k].at)
      {
        ReleasedBound(s.runs[t.log[k].run], t.log[k].mode, t.log[k].prompt, t.log[k].at);
      }
    }
  }

  lemma ReleasedBound(r: Run, mode: Mode, prompt: Prompt, w: World)
    ensures PromptBound(r, mode, prompt, w) == PromptBound(r.(released := true), mode, prompt, w)
  {
  }

  // ------------------------------------------------------------ starting

  /** The session with one more run, which owns it. */
  function Pushed(s: State, o: Options, approved: Option<Prompt>): State {
    s.(runs := s.runs + [Run(o, s.now, s.w.remote, true, false, None, approved, false, ProbeClaim)],
       reservation := Some(o.approval))
  }

  lemma PushedSafe(s: State, r: Run, t: State)
    requires Safe(s)
    requires t == s.(runs := s.runs + [r], reservation := t.reservation, bindings := t.bindings, proof := t.proof)
    requires if r.Owns() then s.reservation.None? && r.stage.ProbeClaim? && t.reservation == Some(r.o.approval)
             else t.reservation == s.reservation && r.stage.Settled? && StageOk(r.stage, ZERO)
    ensures Safe(t) && CountOf(t.log, |s.runs|) == ZERO
  {
    hide CountOf, PromptBound, StageOk, Alone;
    CountNone(s.log, |s.runs|);
    assert forall j :: 0 <= j < |s.runs| ==> t.runs[j] == s.runs[j];
    assert r.Owns() ==> StageOk(r.stage, ZERO) by { FirstStage(r.stage); }
    PushedAlone(s, r, t);
  }

  lemma FirstStage(stage: Stage)
    ensures stage.ProbeClaim? ==> StageOk(stage, ZERO)
  {
  }

  lemma PushedAlone(s: State, r: Run, t: State)
    requires Alone(s) && t.runs == s.runs + [r]
    requires if r.Owns() then s.reservation.None? && t.reservation == Some(r.o.approval)
             else t.reservation == s.reservation && r.stage.Settled?
    ensures Alone(t)
  {
    assert forall j :: 0 <= j < |s.runs| ==> t.runs[j] == s.runs[j];
    assert r.Owns() ==> t.runs[|s.runs|].Owns();
    if s.reservation.Some? {
      var j :| 0 <= j < |s.runs| && s.runs[j].Owns();
      assert t.runs[j].Owns();
    }
  }

  lemma AtSame(s: State, i: nat)
    requires i < |s.runs|
    ensures s.At(i, s.runs[i].stage) == s
  {
  }

  /** Beginning consumes the binding, and then is a move like any other. */
  lemma BeginMoves(s: State, i: nat, c: Counts) returns (s2: State)
    requires i < |s.runs| && s.runs[i].stage.ProbeClaim? && s.runs[i].approved.None? && s.job.None? && c == ZERO
    ensures |s2.runs| == |s.runs|
    ensures s2 == s.(bindings := s2.bindings, runs := s.runs[i := s.runs[i].(approved := s2.runs[i].approved)])
    ensures Counted(s2, Begin(s, i), i, c)
  {
    hide Counted, End, ChooseMode, Reusable, Still, State.At;
    var r := s.runs[i];
    var token := r.o.binding;
    var found := token.Some? && token.value in s.bindings;
    var taken := if found then Some(s.bindings[token.value]) else None;
    var s1 := if found then s.(bindings := s.bindings - {token.value}) else s;
    var approved :=
      if taken.Some? && taken.value.here && s.now - taken.value.capturedAt <= APPROVAL_PROMPT_TTL_MS
      then Some(taken.value.prompt) else None;
    EndMoves(s1, i, c, Failed(TargetChanged));
    if token.Some? && (approved.None? || !Still(approved.value, s.w)) {
      s2 := s1;
    } else {
      s2 := s1.(runs := s1.runs[i := r.(approved := approved)]);
      var gated := r.o.attested && r.remote.Some? && approved.None?;
      ReusableSame(s2, r.remote);
      var s3 := (if gated then Reusable(s2, r.remote) else (true, s2)).1;
      EndMoves(s3, i, c, Failed(TerminalBusy));
      EndMoves(s3, i, c, Failed(TargetChanged));
      ChooseMoves(s3, i, c);
      Unmoved(s3, i, c);
      AtSame(s3, i);
      Carried(s2, s3, Begin(s, i), i, c);
    }
  }

  lemma StartSafe(s: State, o: Options)
    requires Safe(s)
    ensures Safe(Start(s, o))
  {
    hide Safe, Begin, Counted;
    var i := |s.runs|;
    var t := Start(s, o);
    if o.sane && s.job.None? && s.reservation.None? && s.w.Live() && !((s.w.remote.Some? || o.nonceCompletion) && !o.suffixable) {
      var pushed := Pushed(s, o, None);
      var s2 := BeginMoves(pushed, i, ZERO);
      assert s2.runs == s.runs + [s2.runs[i]];
      PushedSafe(s, s2.runs[i], s2);
      MovesKeepSafe(s2, t, i);
    } else {
      PushedSafe(s, t.runs[i], t);
    }
  }

  // ------------------------------------------------------------ aborting

  lemma AbortSafe(s: State, reason: AbortReason, expected: Option<nat>)
    requires Safe(s)
    ensures Safe(AbortSession(s, reason, expected))
  {
    hide Counted, StageOk, CountOf, PromptBound;
    var t := AbortSession(s, reason, expected);
    if s.job.Some? {
      var i := s.job.value;
      FinishMovesAsIs(s, i, CountOf(s.log, i), Released(if reason.Close? then TerminalClosed else Cancelled));
      if t != s { MovesKeepSafe(s, t, i); }
    } else if t != s {
      assert forall k :: 0 <= k < |s.runs| ==> t.runs[k] == if s.runs[k].Owns() then AbortRun(s.runs[k], reason) else s.runs[k];
      forall k | 0 <= k < |s.runs| ensures Abortable(s.runs[k], t.runs[k], CountOf(s.log, k)) {
        AbortRunOk(s.runs[k], reason, CountOf(s.log, k));
      }
      AbortAll(s, t);
    }
  }

  /** An abort answers what the run awaits, and changes nothing else. */
  predicate Abortable(r: Run, r': Run, c: Counts) {
    && Kin(r, r') && r'.Owns() == r.Owns()
    && (r.stage.Settled? <==> r'.stage.Settled?) && (r.stage.Running? <==> r'.stage.Running?)
    && StageOk(r'.stage, c)
  }

  lemma AbortRunOk(r: Run, reason: AbortReason, c: Counts)
    requires StageOk(r.stage, c)
    ensures Abortable(r, r, c) && Abortable(r, AbortRun(r, reason), c)
  {
    hide JobOk, KeysOk, CompletionOk;
  }

  lemma AbortAll(s: State, t: State)
    requires Safe(s) && |t.runs| == |s.runs| && t == s.(runs := t.runs)
    requires forall k :: 0 <= k < |s.runs| ==> Abortable(s.runs[k], t.runs[k], CountOf(s.log, k))
    ensures Safe(t)
  {
    hide StageOk, CountOf, PromptBound, Kin;
    assert forall k :: 0 <= k < |s.runs| ==> t.runs[k].Owns() == s.runs[k].Owns();
    forall k | 0 <= k < |s.runs| ensures t.runs[k].o == s.runs[k].o { KinSame(s.runs[k], t.runs[k]); }
    if s.reservation.Some? {
      var j :| 0 <= j < |s.runs| && s.runs[j].Owns();
      assert t.runs[j].Owns();
    }
    forall k | 0 <= k < |t.log| && t.log[k].Line?
      ensures PromptBound(t.runs[t.log[k].run], t.log[k].mode, t.log[k].prompt, t.log[k].at)
    {
      KinBound(s.runs[t.log[k].run], t.runs[t.log[k].run], t.log[k].mode, t.log[k].prompt, t.log[k].at);
    }
  }

  lemma KinSame(r: Run, r': Run)
    requires Kin(r, r')
    ensures r'.o == r.o && r'.remote == r.remote && r'.startedAt == r.startedAt
  {
  }

  // ------------------------------------------------------------ every run

  lemma StepSafe(s: State, e: Event)
    requires Safe(s)
    ensures Safe(Step(s, e))
  {
    hide Start, AbortSession, JobStep, PreflightStep, Counted, StageOk, CountOf, PromptBound;
    match e
    case Call(o) => StartSafe(s, o);
    case Abort(reason, expected) => AbortSafe(s, reason, expected);
    case On(i, e) =>
      if i < |s.runs| {
        RunStepMoves(s, i, e);
        if s.runs[i].stage.Running? {
          MovesKeepSafe(s, JobStep(s, i, e), i);
        } else if e.Finally? {
          FinallySafe(s, i);
        } else {
          MovesKeepSafe(s, PreflightStep(s, i, e), i);
        }
      }
    case _ =>
  }

  lemma {:induction false} ExecuteSafe(s: State, events: seq<Event>)
    requires Safe(s)
    ensures Safe(Execute(s, events))
    decreases |events|
  {
    hide Safe, Step;
    if events != [] {
      StepSafe(s, events[0]);
      ExecuteSafe(Step(s, events[0]), events[1..]);
    }
  }

  /** What the operator attested to still holds: of a remote run, whose probe has moved the
      prompt, the terminal object and the keyboard; of a local one, everything. */
  predicate Attested(r: Run, at: World) {
    r.approved.Some? ==>
      && at.entry == r.approved.value.entry && at.inputAt == r.approved.value.inputAt && !r.approved.value.alternate
      && (r.remote.None? ==> ExecHistory.Untouched(r.approved.value, at))
  }

  lemma BoundIsAttested(r: Run, mode: Mode, prompt: Prompt, at: World)
    requires PromptBound(r, mode, prompt, at)
    ensures at.remote == r.remote && ExecHistory.Untouched(prompt, at) && Attested(r, at)
  {
    ExecHistory.StillIsUntouched(prompt, at);
    if r.approved.Some? { ExecHistory.StillIsUntouched(r.approved.value, at); }
  }

  /** Under every interleaving: at most one run is between its reservation and its end,
      no run types more than one line or one probe, every line went in while the remote
      identity, the terminal object, its buffer, row, cursor and stamps were those of the
      prompt that this run had waited for and accepted in an earlier step or the same one
      and what the operator attested to still held, in the mode that fits the run,
      every probe went in where it was permitted, and a run that says nothing was executed
      has typed no line. */
  lemma ExecutionSafety(events: seq<Event>)
    ensures var s := Execute(INITIAL, events);
      && (forall i, j :: 0 <= i < j < |s.runs| ==> s.runs[i].stage.Settled? || s.runs[j].stage.Settled?)
      && (s.reservation.Some? <==> exists i :: 0 <= i < |s.runs| && s.runs[i].Owns())
      && (forall i :: 0 <= i < |s.runs| ==> CountOf(s.log, i).lines <= 1 && CountOf(s.log, i).probes <= 1)
      && (forall k :: 0 <= k < |s.log| && s.log[k].Line? ==>
            && s.log[k].run < |s.runs| && s.log[k].at.remote == s.runs[s.log[k].run].remote
            && ExecHistory.Untouched(s.log[k].prompt, s.log[k].at)
            && Attested(s.runs[s.log[k].run], s.log[k].at)
            && ExecHistory.ModeFits(s.runs[s.log[k].run], s.log[k].mode)
            && exists n :: 0 <= n < |events| && ExecHistory.Accepted(events, n, s.log[k].run, s.log[k].prompt))
      && (forall k :: 0 <= k < |s.log| && s.log[k].Probe? ==>
            exists n :: 0 <= n < |events| && ExecHistory.Permitted(events, n, s.log[k].run, s.log[k].at))
      && (forall i :: 0 <= i < |s.runs| && s.runs[i].stage.Settled? && SaysNothing(s.runs[i].stage.outcome) ==>
            CountOf(s.log, i).lines == 0)
      && (forall i :: 0 <= i < |s.runs| && s.runs[i].stage.Settled? && SaysTyped(s.runs[i].stage.outcome) ==>
            CountOf(s.log, i).lines == 1)
  {
    hide CountOf, Execute, PromptBound, Attested, ExecHistory.Accepted, ExecHistory.Permitted, ExecHistory.Before,
      ExecHistory.Untouched, ExecHistory.ModeFits;
    ExecuteSafe(INITIAL, events);
    ExecHistory.ModesAlwaysFit(INITIAL, events);
    var s := Execute(INITIAL, events);
    forall k | 0 <= k < |s.log| && s.log[k].Line?
      ensures s.log[k].run < |s.runs| && s.log[k].at.remote == s.runs[s.log[k].run].remote
      ensures ExecHistory.Untouched(s.log[k].prompt, s.log[k].at) && Attested(s.runs[s.log[k].run], s.log[k].at)
    {
      BoundIsAttested(s.runs[s.log[k].run], s.log[k].mode, s.log[k].prompt, s.log[k].at);
    }
    assert forall i :: 0 <= i < |s.runs| ==> StageOk(s.runs[i].stage, CountOf(s.log, i));
    ExecHistory.BeforeEnds(events);
    ExecHistory.PromptsAreTraced(events, |events|);
    assert forall k :: 0 <= k < |s.log| ==> ExecHistory.Traced(events, |events|, s.log[k]);
  }

  /** Control bytes: none before the line is typed, at most one SIGINT on a user's gesture
      or at most three ladder keys after the alternate screen, and never both. */
  lemma ControlBytes(events: seq<Event>, i: nat)
    requires i < |Execute(INITIAL, events).runs|
    ensures var c := CountOf(Execute(INITIAL, events).log, i);
      && c.gestures <= 1 && c.keys <= LADDER_LENGTH && (c.gestures == 0 || c.keys == 0)
      && (c.lines == 0 ==> c.gestures == 0 && c.keys == 0)
  {
    hide CountOf, Execute;
    ExecuteSafe(INITIAL, events);
    var s := Execute(INITIAL, events);
    assert StageOk(s.runs[i].stage, CountOf(s.log, i));
  }

  /** A control byte for a live command is written only by the user's gesture on this
      very command, by the alternate screen opening, or by a ladder that goes on while
      that screen is still up. */
  lemma ControlOnlyWhenAsked(s: State, i: nat, e: RunEvent, cause: Cause)
    requires i < |s.runs| && s.runs[i].stage.Running? && Step(s, On(i, e)).log == s.log + [Key(i, cause)]
    ensures match cause
      case User => e == Gesture(s.runs[i].o.approval, false)
      case Tui => e.AlternateScreen? || (e.Rung? && s.runs[i].stage.job.ladder.Some? && s.w.alternate)
  {
    hide Complete, Finish, Fire, Refresh, SigintAnswered, BlockStarted, TokenSeen, PreflightStep;
    SilentSteps(s, i);
    assert Step(s, On(i, e)).log[|s.log|] == Key(i, cause);
  }

  /** The steps of a live job that never write. */
  lemma SilentSteps(s: State, i: nat)
    requires i < |s.runs| && s.runs[i].stage.Running?
    ensures forall t: State, outcome :: i < |t.runs| ==> Finish(t, i, outcome).log == t.log
    ensures forall exit :: Complete(s, i, exit).log == s.log
    ensures forall exit, ours :: TokenSeen(s, i, exit, ours).log == s.log
    ensures forall block, ours :: BlockStarted(s, i, block, ours).log == s.log
    ensures forall delivered :: SigintAnswered(s, i, delivered).log == s.log
    ensures forall timer :: Fire(s, i, timer).log == s.log
    ensures Refresh(s, i).log == s.log
  {
    hide ClassifyStall;
  }

  /** A completion that is reported is the first one observed, and after a user's
      interrupt it is reported only with the SIGINT write confirmed. */
  lemma FirstCompletion(events: seq<Event>, i: nat)
    requires var s := Execute(INITIAL, events);
      i < |s.runs| && s.runs[i].stage.Settled? && s.runs[i].stage.outcome.exit.Some?
    ensures var stage := Execute(INITIAL, events).runs[i].stage;
      && stage.last.Some? && stage.last.value.completions != []
      && stage.outcome == stage.last.value.completions[0]
      && (stage.last.value.cause == Some(User) ==> stage.last.value.confirmed && stage.outcome.error == Some(Interrupted))
  {
    hide CountOf, Execute;
    ExecuteSafe(INITIAL, events);
    var s := Execute(INITIAL, events);
    assert StageOk(s.runs[i].stage, CountOf(s.log, i));
  }

  // ------------------------------------------------------------ one outcome

  /** Later steps neither change a settled run nor lose a run or a write. */
  lemma StepKeeps(s: State, e: Event, i: nat)
    requires Safe(s) && i < |s.runs|
    ensures var t := Step(s, e);
      && |s.runs| <= |t.runs| && s.log <= t.log
      && (s.runs[i].stage.Settled? ==> t.runs[i].stage == s.runs[i].stage)
  {
    hide JobStep, PreflightStep, StageOk, CountOf, PromptBound, Begin, End;
    match e
    case Call(o) => StartKeeps(s, o, i);
    case Abort(reason, expected) => AbortKeeps(s, reason, expected, i);
    case On(j, e) =>
      if j < |s.runs| {
        RunStepMoves(s, j, e);
        if e.Finally? && !s.runs[j].stage.Running? { FinallyKeeps(s, j, i); }
      }
    case _ =>
  }

  lemma FinallyKeeps(s: State, j: nat, i: nat)
    requires j < |s.runs| && i < |s.runs| && !s.runs[j].stage.Running?
    ensures var t := PreflightStep(s, j, Finally);
      |s.runs| == |t.runs| && s.log == t.log && t.runs[i].stage == s.runs[i].stage
  {
  }

  lemma StartKeeps(s: State, o: Options, i: nat)
    requires Safe(s) && i < |s.runs|
    ensures var t := Start(s, o);
      |s.runs| <= |t.runs| && s.log <= t.log && t.runs[i] == s.runs[i]
  {
    hide Begin, Counted, StageOk, CountOf, PromptBound;
    var k := |s.runs|;
    if o.sane && s.job.None? && s.reservation.None? && s.w.Live() && !((s.w.remote.Some? || o.nonceCompletion) && !o.suffixable) {
      var pushed := Pushed(s, o, None);
      var s2 := BeginMoves(pushed, k, ZERO);
      MovesKeepOthers(s2, Start(s, o), k, i);
      assert s2.runs[i] == pushed.runs[i];
    }
  }

  lemma MovesKeepOthers(s: State, t: State, k: nat, i: nat)
    requires Counted(s, t, k, ZERO) && i < |s.runs| && i != k
    ensures |t.runs| == |s.runs| && t.runs[i] == s.runs[i] && s.log <= t.log
  {
    hide StageOk;
  }

  lemma AbortKeeps(s: State, reason: AbortReason, expected: Option<nat>, i: nat)
    requires Safe(s) && i < |s.runs|
    ensures var t := AbortSession(s, reason, expected);
      && |s.runs| == |t.runs| && s.log == t.log
      && (s.runs[i].stage.Settled? ==> t.runs[i].stage == s.runs[i].stage)
  {
    hide StageOk, CountOf, PromptBound;
  }

  /** Each run settles on one outcome: once settled it never changes again. */
  lemma {:induction false} OneOutcome(s: State, events: seq<Event>, i: nat)
    requires Safe(s) && i < |s.runs| && s.runs[i].stage.Settled?
    ensures var t := Execute(s, events);
      i < |t.runs| && t.runs[i].stage == s.runs[i].stage && s.log <= t.log
    decreases |events|
  {
    hide Safe, Step;
    if events != [] {
      StepKeeps(s, events[0], i);
      StepSafe(s, events[0]);
      OneOutcome(Step(s, events[0]), events[1..], i);
    }
  }

  // ------------------------------------------------------------ the note of a closed terminal

  const SHELL_WORLD := World(Some(0), false, false, false, 3, 2, false, false, false, 0, 0, None, true, true, true)

  const PLAIN_RUN := Options(7, 60_000, 20_000, true, true, true, false, false, None, false)

  /** The note of terminal_closed says that nothing was executed. A terminal that goes
      away after the line was typed settles with the same outcome. */
  lemma ClosedAfterTyping()
    ensures var s := Execute(INITIAL, [Seen(SHELL_WORLD), Call(PLAIN_RUN), On(0, Poll), On(0, Resume(true)), On(0, Disposed)]);
      && |s.runs| == 1 && s.runs[0].stage.Settled? && s.runs[0].stage.outcome == Failed(TerminalClosed)
      && s.runs[0].stage.outcome.note && CountOf(s.log, 0).lines == 1
  {
    hide Execute, Step;
    var e := [Seen(SHELL_WORLD), Call(PLAIN_RUN), On(0, Poll), On(0, Resume(true)), On(0, Disposed)];
    var s3 := Polled();
    var s4 := Step(s3, e[3]);
    var s5 := Step(s4, e[4]);
    PolledWaits();
    TypedThenClosed();
    Unrolled(INITIAL, e, Step(INITIAL, e[0]), Step(Step(INITIAL, e[0]), e[1]), s3, s4, s5);
    CountLast([], s5.log[0], 0);
    assert [] + [s5.log[0]] == s5.log;
  }

  /** A plain command's run once its prompt has been seen. */
  function Polled(): State { Step(Step(Step(INITIAL, Seen(SHELL_WORLD)), Call(PLAIN_RUN)), On(0, Poll)) }

  lemma PolledWaits()
    ensures var s := Polled();
      && |s.runs| == 1 && s.w == SHELL_WORLD && s.log == [] && s.now == 0 && s.job.None?
      && s.runs[0].(approved := None) == Run(PLAIN_RUN, 0, None, true, false, None, None, false, Waited(ForIntegrated, Ready))
      && s.runs[0].approved.None?
  {
  }

  lemma TypedThenClosed()
    ensures var s4 := Step(Polled(), On(0, Resume(true))); var s5 := Step(s4, On(0, Disposed));
      && s4.log == [Line(0, Integrated, PromptOf(SHELL_WORLD), SHELL_WORLD)]
      && s5.log == s4.log && |s5.runs| == 1
      && s5.runs[0].stage.Settled? && s5.runs[0].stage.outcome == Failed(TerminalClosed)
  {
    hide Polled;
    PolledWaits();
  }

  lemma Unrolled(s: State, e: seq<Event>, s1: State, s2: State, s3: State, s4: State, s5: State)
    requires |e| == 5 && s1 == Step(s, e[0]) && s2 == Step(s1, e[1]) && s3 == Step(s2, e[2]) && s4 == Step(s3, e[3])
    requires s5 == Step(s4, e[4])
    ensures Execute(s, e) == s5
  {
    hide Step;
    assert e[1..][1..] == e[2..] && e[2..][1..] == e[3..] && e[3..][1..] == e[4..] && e[4..][1..] == [];
    assert Execute(s, e) == Execute(s1, e[1..]);
    assert Execute(s1, e[1..]) == Execute(s2, e[2..]);
    assert Execute(s2, e[2..]) == Execute(s3, e[3..]);
    assert Execute(s3, e[3..]) == Execute(s4, e[4..]);
    assert Execute(s4, e[4..]) == Execute(s5, []);
  }

  /** What the step that settles a run shows of the job it had. */
  lemma SettlingStep(s: State, e: Event, i: nat)
    requires Safe(s) && i < |Step(s, e).runs| && Step(s, e).runs[i].stage.Settled?
    requires i < |s.runs| ==> !s.runs[i].stage.Settled?
    ensures s.job == Some(i) <==> i < |s.runs| && s.runs[i].stage.Running?
    ensures var stage := Step(s, e).runs[i].stage;
      s.job != Some(i) ==> stage.last.None? || stage.outcome == Failed(TargetChanged)
    ensures s.log <= Step(s, e).log
  {
    hide StageOk, CountOf, PromptBound, Start, AbortSession, JobStep, PreflightStep, ExecHistory.Accepting,
      ExecHistory.ProbeAllowed, ExecHistory.Licensed;
    match e
    case Call(o) => ExecHistory.StartStarts(s, o);
    case Abort(reason, expected) => ExecHistory.AbortAborts(s, reason, expected);
    case On(j, e) => if j < |s.runs| { ExecHistory.RunTouches(s, j, e); }
    case _ =>
  }

  lemma {:induction false} CountGrows(log: seq<Entry>, more: seq<Entry>, i: nat)
    requires log <= more
    ensures CountOf(log, i).lines <= CountOf(more, i).lines
    decreases |more|
  {
    if |more| > |log| { CountGrows(log, more[..|more| - 1], i); } else { assert log == more; }
  }

  /** When a run settles with a note that nothing was executed, no line was handed to the
      PTY exactly if the session had no live job of this run just before. Whether a line
      that was handed over reached the shell, the program cannot know. */
  lemma NoteExactly(events: seq<Event>, n: nat, i: nat)
    requires n < |events|
    requires var s, t := ExecHistory.Before(events, n), ExecHistory.Before(events, n + 1);
      && i < |t.runs| && t.runs[i].stage.Settled? && (i < |s.runs| ==> !s.runs[i].stage.Settled?)
      && t.runs[i].stage.outcome.note
    ensures var s, t := ExecHistory.Before(events, n), ExecHistory.Before(events, n + 1);
      CountOf(t.log, i).lines == 0 <==> s.job != Some(i)
  {
    hide CountOf, Step, ExecHistory.Before;
    var s, t := ExecHistory.Before(events, n), ExecHistory.Before(events, n + 1);
    SafeBefore(events, n);
    SafeBefore(events, n + 1);
    ExecHistory.BeforeNext(events, n);
    SettlingStep(s, events[n], i);
    CountGrows(s.log, t.log, i);
    assert StageOk(t.runs[i].stage, CountOf(t.log, i));
    assert i < |s.runs| ==> StageOk(s.runs[i].stage, CountOf(s.log, i));
  }

  lemma SafeBefore(events: seq<Event>, n: nat)
    requires n <= |events|
    ensures Safe(ExecHistory.Before(events, n))
  {
    hide Safe, Execute;
    NothingYet();
    ExecuteSafe(INITIAL, events[..n]);
  }

  lemma NothingYet()
    ensures Safe(INITIAL)
  {
  }
}
