/** What the past of a session says about its present: which prompt a typed line had been
    accepted for, what allowed a probe, and where an operator's attestation came from.
    Nothing here is kept by the program; it is read off the events. */
module ExecHistory {
  import opened Basics
  import opened ExecModel

  /** The session before its n-th event. */
  function Before(events: seq<Event>, n: nat): State
    requires n <= |events|
  {
    Execute(INITIAL, events[..n])
  }

  lemma {:induction false} ExecuteJoins(s: State, a: seq<Event>, b: seq<Event>)
    ensures Execute(s, a + b) == Execute(Execute(s, a), b)
    decreases |a|
  {
    hide Step;
    if a == [] {
      assert a + b == b;
    } else {
      assert (a + b)[1..] == a[1..] + b;
      ExecuteJoins(Step(s, a[0]), a[1..], b);
    }
  }

  lemma BeforeNext(events: seq<Event>, n: nat)
    requires n < |events|
    ensures Before(events, n + 1) == Step(Before(events, n), events[n])
  {
    hide Step;
    assert events[..n + 1] == events[..n] + [events[n]];
    ExecuteJoins(INITIAL, events[..n], [events[n]]);
    var s := Before(events, n);
    assert Execute(s, [events[n]]) == Execute(Step(s, events[n]), []);
  }

  lemma BeforeEnds(events: seq<Event>)
    ensures Before(events, 0) == INITIAL && Before(events, |events|) == Execute(INITIAL, events)
  {
    assert events[..|events|] == events;
  }

  // ------------------------------------------------------------ what one event may do to a run

  /** The prompt that a run takes with it across the final claim. */
  function CarriedBy(stage: Stage): Option<Prompt> {
    if stage.FinalClaim? || stage.FinalClaimed? then Some(stage.prompt) else None
  }

  /** The prompt that a run accepts when its wait for one is answered. */
  function Accepting(s: State, i: nat, e: RunEvent): Option<Prompt>
    requires i < |s.runs|
  {
    var r := s.runs[i];
    if e.Resume? && r.stage.Waited? && r.stage.result.Ready? && !r.stage.goal.ForProbe? && r.aborted.None?
       && s.w.Live() && s.w.remote == r.remote
    then Some(PromptOf(s.w)) else None
  }

  /** The terminal is live, on its normal buffer, and as the prompt says: the same object,
      row, column and stamps. */
  predicate Untouched(p: Prompt, w: World) {
    && w.entry.Some? && !w.disposed && !w.alternate
    && p.entry == w.entry && !p.alternate && p.row == w.row && p.cursorX == w.cursorX
    && p.dataAt == w.dataAt && p.inputAt == w.inputAt
  }

  lemma StillIsUntouched(p: Prompt, w: World)
    ensures Still(p, w) <==> Untouched(p, w)
  {
  }

  /** A wait ends well only on a prompt that is visible in a live terminal. */
  predicate SeesPrompt(s: State, i: nat, e: RunEvent, goal: Goal)
    requires i < |s.runs|
  {
    var stage := s.runs[i].stage;
    && e.Poll? && stage.Waiting? && stage.goal == goal && s.runs[i].aborted.None?
    && s.w.entry.Some? && !s.w.disposed && !s.w.exited && !s.w.alternate
    && (if goal.ForIntegrated? || goal.ForSentinel? then s.w.emptyPrompt || (s.w.promptColumn && s.now > stage.graceUntil)
        else s.now >= s.w.dataAt + 600 && s.now >= s.w.inputAt + 600 && s.w.cursorX > 0 && !s.w.blankRow)
  }

  /** A shell was proved here for this remote at most five minutes ago, and nobody has typed
      since. */
  predicate Fresh(p: Proof, s: State, remote: Option<nat>) {
    && s.w.entry == Some(p.keyboard.0) && !s.w.disposed && s.w.inputAt == p.keyboard.1
    && p.remote == remote && s.now <= p.provenAt + 300_000
  }

  lemma UsableIsFresh(p: Proof, s: State, remote: Option<nat>)
    ensures Usable(p, s, remote) <==> Fresh(p, s, remote)
  {
  }

  /** What must hold in the step that types a probe. */
  predicate ProbeAllowed(s: State, i: nat, e: RunEvent)
    requires i < |s.runs|
  {
    var r := s.runs[i];
    && e.Resume? && r.stage == Waited(ForProbe, Ready) && r.aborted.None? && s.now < r.DeadlineAt()
    && s.w.remote == r.remote
    && (r.approved.Some? ==> Untouched(r.approved.value, s.w))
    && (r.o.attested ==> r.approved.Some? || (s.proof.Some? && Fresh(s.proof.value, s, r.remote)))
  }

  predicate Licensed(x: Entry, i: nat, w: World, accepted: Option<Prompt>, probe: bool) {
    && x.run == i
    && match x
       case Line(_, _, prompt, at) => accepted == Some(prompt) && at == w
       case Probe(_, at) => probe && at == w
       case Key(_, _) => true
  }

  /** Who a run is, and what it was approved for. */
  predicate Same(r: Run, r': Run) {
    r'.o == r.o && r'.startedAt == r.startedAt && r'.remote == r.remote && r'.approved == r.approved
  }

  /** A run that ends before it has a job leaves none behind, unless the target is
      refused at the last moment; a prompt is only ever found by waiting for it; and a
      new job has seen nothing. */
  predicate Follows(before: Stage, after: Stage) {
    && (after.Settled? && !before.Settled? && !before.Running? ==>
          after.last.None? || after.outcome == Failed(TargetChanged))
    && (after.Waited? && after.result.Ready? && after != before ==> before.Waiting? && before.goal == after.goal)
    && (!before.Running? && after != before && JobOf(after).Some? ==> Blank(JobOf(after).value))
  }

  /** How a run will report its completion, once that is decided. */
  function ModeOf(stage: Stage): Option<Mode> {
    match stage
    case Waiting(goal, _, _, _) => Some(if goal.ForIntegrated? then Integrated else Sentinel)
    case Waited(goal, _) => Some(if goal.ForIntegrated? then Integrated else Sentinel)
    case Probing(_, _) => Some(Sentinel)
    case Probed(_, _) => Some(Sentinel)
    case FinalClaim(mode, _) => Some(mode)
    case FinalClaimed(mode, _, _) => Some(mode)
    case Running(job) => Some(job.mode)
    case _ => None
  }

  /** Shell integration is trusted for a local command that asks for no fresh token. */
  predicate ModeFits(r: Run, mode: Mode) { mode.Integrated? <==> r.remote.None? && !r.o.nonceCompletion }

  predicate ModeOk(r: Run) { ModeOf(r.stage).Some? ==> ModeFits(r, ModeOf(r.stage).value) }

  /** The job a stage shows, if any. */
  function JobOf(stage: Stage): Option<Job> {
    match stage
    case Running(job) => Some(job)
    case Settled(_, last) => last
    case _ => None
  }

  /** A job that has not seen anything yet. */
  predicate Blank(job: Job) { job.bound.None? && job.completions == [] && job.cause.None? && job.foreign == 0 }

  ghost predicate Touches(s: State, t: State, i: nat, accepted: Option<Prompt>, probe: bool) {
    && i < |s.runs| && |t.runs| == |s.runs| && t.bindings == s.bindings && t.w == s.w && t.now == s.now
    && (forall j :: 0 <= j < |s.runs| && j != i ==> t.runs[j] == s.runs[j])
    && Same(s.runs[i], t.runs[i])
    && CarriedBy(t.runs[i].stage) in {None, accepted}
    && Follows(s.runs[i].stage, t.runs[i].stage) && (ModeOk(s.runs[i]) ==> ModeOk(t.runs[i]))
    && (t.log == s.log || (|t.log| == |s.log| + 1 && t.log[..|s.log|] == s.log
                           && Licensed(t.log[|s.log|], i, s.w, accepted, probe)
                           && (t.log[|s.log|].Line? ==> ModeOf(t.runs[i].stage) == Some(t.log[|s.log|].mode))))
  }

  /** Moving run i to another stage. */
  lemma Moved(s: State, t: State, i: nat, accepted: Option<Prompt>, probe: bool)
    requires i < |s.runs| && |t.runs| == |s.runs|
    requires t == s.At(i, t.runs[i].stage).(job := t.job, proof := t.proof)
    requires CarriedBy(t.runs[i].stage) in {None, accepted} && Follows(s.runs[i].stage, t.runs[i].stage)
    requires ModeOk(s.runs[i]) ==> ModeOk(t.runs[i])
    ensures Touches(s, t, i, accepted, probe)
  {
  }

  lemma Wrote(s: State, t: State, i: nat, x: Entry, accepted: Option<Prompt>, probe: bool)
    requires i < |s.runs| && |t.runs| == |s.runs|
    requires t == s.At(i, t.runs[i].stage).(job := t.job, proof := t.proof, log := s.log + [x])
    requires (t.runs[i].stage.Running? || t.runs[i].stage.Probing?) && Follows(s.runs[i].stage, t.runs[i].stage)
    requires Licensed(x, i, s.w, accepted, probe) && (ModeOk(s.runs[i]) ==> ModeOk(t.runs[i]))
    requires x.Line? ==> ModeOf(t.runs[i].stage) == Some(x.mode)
    ensures Touches(s, t, i, accepted, probe)
  {
  }

  /** A proof of the shell, and the run's own authorization, make no difference. */
  lemma Via(s: State, s': State, t: State, i: nat, accepted: Option<Prompt>, probe: bool)
    requires i < |s.runs| && |s'.runs| == |s.runs|
    requires s' == s.(proof := s'.proof, runs := s.runs[i := s'.runs[i]])
    requires s'.runs[i] == s.runs[i].(authorized := s'.runs[i].authorized)
    requires Touches(s', t, i, accepted, probe)
    ensures Touches(s, t, i, accepted, probe)
  {
    hide Licensed, CarriedBy, Follows;
  }

  // ------------------------------------------------------------ a live job

  lemma JobTouches(s: State, i: nat, e: RunEvent)
    requires i < |s.runs| && s.runs[i].stage.Running?
    ensures Touches(s, JobStep(s, i, e), i, None, false)
  {
    hide ClassifyStall, ArmGrace, Complete, UserInterrupt, TuiInterrupt, SigintAnswered, KeyAnswered, LadderStep,
      BlockStarted, TokenSeen, Refresh, Fire, Finish, Touches;
    var job := s.runs[i].stage.job;
    Moved(s, s, i, None, false);
    Finished(s, i, job, Failed(TerminalClosed));
    match e
    case Gesture(_, thrown) => KeysTouch(s, i, job, thrown);
    case SigintReply(delivered) => AnswersTouch(s, i, delivered);
    case KeyReply => AnswersTouch(s, i, false);
    case Rung => LadderTouches(s, i);
    case Started(block, ours) => ReportsTouch(s, i, block, ours);
    case Ended(_, exit) => CompleteTouches(s, i, exit);
    case Token(exit, mine) => TokenTouches(s, i, exit, mine);
    case AlternateScreen => KeysTouch(s, i, job.(stall := Some(Hijacked)), false);
    case Beat => ReportsTouch(s, i, 0, false);
    case Alarm(timer) => FireTouches(s, i, timer);
    case _ =>
  }

  lemma Finished(s: State, i: nat, job: Job, outcome: Outcome)
    requires i < |s.runs| && s.runs[i].stage.Running?
    requires job.mode == s.runs[i].stage.job.mode
    ensures Touches(s, Finish(Update(s, i, job), i, outcome), i, None, false)
    ensures Touches(s, Finish(s, i, outcome), i, None, false)
    ensures Touches(s, Update(s, i, job), i, None, false)
  {
    hide Touches;
    Moved(s, Finish(Update(s, i, job), i, outcome), i, None, false);
    Moved(s, Finish(s, i, outcome), i, None, false);
    Moved(s, Update(s, i, job), i, None, false);
  }

  lemma Keyed(s: State, i: nat, job: Job, cause: Cause)
    requires i < |s.runs| && s.runs[i].stage.Running?
    requires job.mode == s.runs[i].stage.job.mode
    ensures Touches(s, Update(s, i, job).Write(Key(i, cause)), i, None, false)
  {
    hide Touches;
    Wrote(s, Update(s, i, job).Write(Key(i, cause)), i, Key(i, cause), None, false);
  }

  lemma KeysTouch(s: State, i: nat, job: Job, thrown: bool)
    requires i < |s.runs| && s.runs[i].stage.Running?
    requires job.mode == s.runs[i].stage.job.mode
    ensures Touches(s, UserInterrupt(s, i, thrown), i, None, false)
    ensures Touches(s, TuiInterrupt(Update(s, i, job), i), i, None, false)
  {
    hide Touches, Finish;
    var own := s.runs[i].stage.job;
    Moved(s, s, i, None, false);
    Finished(s, i, job, Failed(InterruptFailed));
    var asked := own.(pending := true, cause := Some(User), gestureAt := Some(s.now));
    Finished(s, i, asked, Failed(InterruptFailed));
    Keyed(s, i, asked.(deliveryAt := Some(s.now + USER_INTERRUPT_DELIVERY_TIMEOUT_MS)), User);
    var led := job.(ladder := Some(Ladder(1, None)), cause := Some(Tui));
    assert Update(Update(s, i, job), i, led) == Update(s, i, led);
    Keyed(s, i, led, Tui);
  }

  lemma AnswersTouch(s: State, i: nat, delivered: bool)
    requires i < |s.runs| && s.runs[i].stage.Running?
    ensures Touches(s, SigintAnswered(s, i, delivered), i, None, false) && Touches(s, KeyAnswered(s, i), i, None, false)
  {
    hide Touches, Finish;
    var job := s.runs[i].stage.job;
    var known := job.(confirmed := true, deliveryAt := None);
    Moved(s, s, i, None, false);
    Finished(s, i, job, Failed(InterruptFailed));
    if known.buffered.Some? { Finished(s, i, known.(buffered := None), known.buffered.value); }
    Finished(s, i, ArmGrace(known, s.now), Failed(InterruptFailed));
    if job.ladder.Some? {
      Finished(s, i, job.(ladder := Some(job.ladder.value.(stepAt := Some(s.now + LADDER_STEP_MS)))), Failed(InterruptFailed));
    }
  }

  lemma LadderTouches(s: State, i: nat)
    requires i < |s.runs| && s.runs[i].stage.Running?
    ensures Touches(s, LadderStep(s, i), i, None, false)
  {
    hide Touches, Finish;
    var job := s.runs[i].stage.job;
    Moved(s, s, i, None, false);
    Finished(s, i, ArmGrace(job.(ladder := None), s.now), Failed(InterruptFailed));
    if job.ladder.Some? { Keyed(s, i, job.(ladder := Some(Ladder(job.ladder.value.keys + 1, None))), Tui); }
  }

  lemma ReportsTouch(s: State, i: nat, block: nat, ours: bool)
    requires i < |s.runs| && s.runs[i].stage.Running?
    ensures Touches(s, BlockStarted(s, i, block, ours), i, None, false) && Touches(s, Refresh(s, i), i, None, false)
  {
    hide Touches, Finish, ClassifyStall;
    var job := s.runs[i].stage.job;
    Moved(s, s, i, None, false);
    Finished(s, i, job.(bound := Some(block)), Failed(NotObserved));
    Finished(s, i, job.(foreign := job.foreign + 1), Failed(NotObserved));
    var next := job.(refreshAt := s.now + CARD_REFRESH_MS);
    Finished(s, i, next, Failed(NotObserved));
    Finished(s, i, next.(
      paused := if job.stall == Some(Password) then job.paused + (s.now - job.lastTick) else job.paused,
      lastTick := s.now,
      stall := ClassifyStall(job, s.w, s.now)), Failed(NotObserved));
  }

  lemma CompleteTouches(s: State, i: nat, exit: int)
    requires i < |s.runs| && s.runs[i].stage.Running?
    ensures Touches(s, Complete(s, i, exit), i, None, false)
  {
    hide Touches, Finish;
    var job := s.runs[i].stage.job;
    var outcome := Outcome(Some(exit), if job.cause.Some? then Some(Interrupted) else None, false);
    var seen := job.(completions := job.completions + [outcome]);
    Finished(s, i, if job.buffered.None? then seen.(buffered := Some(outcome)) else seen, outcome);
    Finished(s, i, seen, outcome);
  }

  /** A renewed proof, and an update of the job, make no difference. */
  lemma ViaJob(s: State, proof: Option<Proof>, job: Job, t: State, i: nat)
    requires i < |s.runs| && s.runs[i].stage.Running?
    requires Touches(Update(s.(proof := proof), i, job), t, i, None, false)
    requires job.mode == s.runs[i].stage.job.mode
    ensures Touches(s, t, i, None, false)
  {
    hide Licensed, CarriedBy, Still;
  }

  lemma TokenTouches(s: State, i: nat, exit: int, ours: bool)
    requires i < |s.runs| && s.runs[i].stage.Running?
    ensures Touches(s, TokenSeen(s, i, exit, ours), i, None, false)
  {
    hide Touches, Complete;
    var job := s.runs[i].stage.job;
    Moved(s, s, i, None, false);
    var renewed := if s.runs[i].remote.Some? && s.proof.Some? then Some(s.proof.value.(provenAt := s.now)) else s.proof;
    var s' := Update(s.(proof := renewed), i, job.(proved := true));
    CompleteTouches(s', i, exit);
    ViaJob(s, renewed, job.(proved := true), Complete(s', i, exit), i);
  }

  lemma FireTouches(s: State, i: nat, timer: Timer)
    requires i < |s.runs| && s.runs[i].stage.Running?
    ensures Touches(s, Fire(s, i, timer), i, None, false)
  {
    hide Touches, Finish;
    var r, job := s.runs[i], s.runs[i].stage.job;
    Moved(s, s, i, None, false);
    Finished(s, i, job.(bindAt := None), Failed(NotObserved));
    Finished(s, i, job.(deliveryAt := None), Failed(InterruptFailed));
    Finished(s, i, job.(deadlineAt := None), Failed(Timeout));
    Finished(s, i, job.(deadlineAt := Some(s.now + (r.o.timeout - (s.now - r.startedAt - job.paused)))), Failed(Interrupted));
  }

  // ------------------------------------------------------------ before dispatch

  lemma Ended(s: State, i: nat, outcome: Outcome, accepted: Option<Prompt>, probe: bool)
    requires i < |s.runs|
    ensures Touches(s, End(s, i, outcome), i, accepted, probe)
  {
    hide Touches;
    Moved(s, End(s, i, outcome), i, accepted, probe);
  }

  lemma NewIsBlank(r: Run, mode: Mode, now: int)
    ensures Blank(NewJob(r, mode, now)) && NewJob(r, mode, now).mode == mode
  {
  }

  lemma DispatchTouches(s: State, i: nat, mode: Mode, prompt: Prompt, canWrite: bool)
    requires i < |s.runs|
    requires ModeOk(s.runs[i]) ==> ModeFits(s.runs[i], mode)
    ensures Touches(s, Dispatch(s, i, mode, prompt, canWrite), i, Some(prompt), false)
  {
    hide Touches, PromptBound, NewJob, Finish, End;
    var r := s.runs[i];
    Ended(s, i, r.AbortedOutcome(), Some(prompt), false);
    Ended(s, i, Failed(TerminalBusy), Some(prompt), false);
    Ended(s, i, Failed(TargetChanged), Some(prompt), false);
    JobTyped(s, i, mode, prompt);
  }

  lemma JobTyped(s: State, i: nat, mode: Mode, prompt: Prompt)
    requires i < |s.runs| && (ModeOk(s.runs[i]) ==> ModeFits(s.runs[i], mode))
    ensures var live := s.At(i, Running(NewJob(s.runs[i], mode, s.now))).(job := Some(i));
      && Touches(s, live.Write(Line(i, mode, prompt, s.w)), i, Some(prompt), false)
      && Touches(s, Finish(live, i, Failed(TargetChanged)), i, Some(prompt), false)
  {
    hide Touches, NewJob, Blank;
    NewIsBlank(s.runs[i], mode, s.now);
    var live := s.At(i, Running(NewJob(s.runs[i], mode, s.now))).(job := Some(i));
    var refused := Finish(live, i, Failed(TargetChanged));
    Wrote(s, live.Write(Line(i, mode, prompt, s.w)), i, Line(i, mode, prompt, s.w), Some(prompt), false);
    assert refused.runs[i].stage == Settled(Failed(TargetChanged), Some(NewJob(s.runs[i], mode, s.now)));
    Moved(s, refused, i, Some(prompt), false);
  }

  lemma PrepareTouches(s: State, i: nat, mode: Mode, canWrite: bool)
    requires i < |s.runs|
    requires ModeOk(s.runs[i]) ==> ModeFits(s.runs[i], mode)
    ensures Touches(s, Prepare(s, i, mode, canWrite), i,
                    if s.runs[i].aborted.None? && s.w.Live() then Some(PromptOf(s.w)) else None, false)
  {
    hide Touches, Dispatch;
    var r := s.runs[i];
    var accepted := if r.aborted.None? && s.w.Live() then Some(PromptOf(s.w)) else None;
    Ended(s, i, r.AbortedOutcome(), accepted, false);
    Ended(s, i, Failed(TerminalClosed), accepted, false);
    Ended(s, i, Failed(Unsafe), accepted, false);
    Ended(s, i, Failed(TargetChanged), accepted, false);
    DispatchTouches(s, i, mode, PromptOf(s.w), canWrite);
    if r.aborted.None? && s.w.Live() { Moved(s, s.At(i, FinalClaim(mode, PromptOf(s.w))), i, accepted, false); }
  }

  lemma ProbeTouches(s: State, i: nat, canWrite: bool)
    requires i < |s.runs| && s.runs[i].stage == Waited(ForProbe, Ready) && s.w.remote == s.runs[i].remote
    ensures Touches(s, SendProbe(s, i), i, None, ProbeAllowed(s, i, Resume(canWrite)))
  {
    hide Touches, NoPrompt, EndUnlessAborted, Still, Usable, State.At, State.Write, ProbeAllowed;
    var r := s.runs[i];
    var allowed := ProbeAllowed(s, i, Resume(canWrite));
    var s1 := Reusable(s, r.remote).1;
    var left := Min(PROBE_WAIT_MS, r.DeadlineAt() - s.now);
    ProbeIsAllowed(s, i, canWrite);
    NoPromptTouches(s1, i, NotReady, allowed);
    ProbingTouches(s1, i, s.now + left, allowed);
    Via(s, s1, SendProbe(s, i), i, None, allowed);
  }

  lemma ProbeIsAllowed(s: State, i: nat, canWrite: bool)
    requires i < |s.runs| && s.runs[i].stage == Waited(ForProbe, Ready) && s.w.remote == s.runs[i].remote
    ensures var r := s.runs[i]; var reused := Reusable(s, r.remote);
      && reused.1 == s.(proof := reused.1.proof)
      && ((&& r.aborted.None? && r.DeadlineAt() > s.now && (r.approved.Some? ==> Still(r.approved.value, s.w))
           && (r.o.attested ==> r.approved.Some? || reused.0)) ==> ProbeAllowed(s, i, Resume(canWrite)))
  {
    hide Still, Usable, Untouched, Fresh;
    var r := s.runs[i];
    if r.approved.Some? { StillIsUntouched(r.approved.value, s.w); }
    if s.proof.Some? { UsableIsFresh(s.proof.value, s, r.remote); }
  }

  lemma NoPromptTouches(s: State, i: nat, result: Readiness, probe: bool)
    requires i < |s.runs|
    ensures Touches(s, NoPrompt(s, i, result), i, None, probe)
    ensures Touches(s, EndUnlessAborted(s, i, Failed(TargetChanged)), i, None, probe)
  {
    hide Touches, End;
    Ended(s, i, s.runs[i].AbortedOutcome(), None, probe);
    Ended(s, i, Failed(TerminalClosed), None, probe);
    Ended(s, i, Failed(IntegrationUnavailable), None, probe);
    Ended(s, i, Failed(TerminalBusy), None, probe);
    Ended(s, i, Failed(TargetChanged), None, probe);
  }

  lemma ProbingTouches(s: State, i: nat, deadline: int, probe: bool)
    requires i < |s.runs|
    requires ModeOk(s.runs[i]) ==> ModeFits(s.runs[i], Sentinel)
    ensures Touches(s, s.At(i, Probed(s.w.Keyboard(), false)), i, None, probe)
    ensures probe ==> Touches(s, s.At(i, Probing(s.w.Keyboard(), deadline)).Write(Probe(i, s.w)), i, None, probe)
  {
    hide Touches;
    Moved(s, s.At(i, Probed(s.w.Keyboard(), false)), i, None, probe);
    if probe { Wrote(s, s.At(i, Probing(s.w.Keyboard(), deadline)).Write(Probe(i, s.w)), i, Probe(i, s.w), None, probe); }
  }

  lemma WaitedTouches(s: State, i: nat, canWrite: bool)
    requires i < |s.runs| && s.runs[i].stage.Waited?
    ensures var e := Resume(canWrite);
      Touches(s, AfterWait(s, i, canWrite), i, Accepting(s, i, e), ProbeAllowed(s, i, e))
  {
    hide Touches, Prepare, SendProbe, End, ProbeAllowed;
    var r, e := s.runs[i], Resume(canWrite);
    var accepted := Accepting(s, i, e);
    var probe := ProbeAllowed(s, i, e);
    Ended(s, i, r.AbortedOutcome(), accepted, probe);
    Ended(s, i, Failed(TerminalClosed), accepted, probe);
    Ended(s, i, Failed(IntegrationUnavailable), accepted, probe);
    Ended(s, i, Failed(TerminalBusy), accepted, probe);
    Ended(s, i, Failed(TargetChanged), accepted, probe);
    if r.stage.result.Ready? && s.w.remote == r.remote {
      match r.stage.goal
      case ForIntegrated => PrepareTouches(s, i, Integrated, canWrite); NoProbe(s, Prepare(s, i, Integrated, canWrite), i, accepted, probe);
      case ForSentinel => PrepareTouches(s, i, Sentinel, canWrite); NoProbe(s, Prepare(s, i, Sentinel, canWrite), i, accepted, probe);
      case ForProbe => ProbeTouches(s, i, canWrite);
      case ForCommand(_) =>
        var s' := RememberProof(s, r.remote);
        PrepareTouches(s', i, Sentinel, canWrite);
        var t := Prepare(s', i, Sentinel, canWrite);
        Via(s, s', t, i, accepted, false);
        NoProbe(s, t, i, accepted, probe);
    }
  }

  lemma NoProbe(s: State, t: State, i: nat, accepted: Option<Prompt>, probe: bool)
    requires Touches(s, t, i, accepted, false)
    ensures Touches(s, t, i, accepted, probe)
  {
  }

  /** The steps that accept nothing and write nothing. */
  lemma OthersTouch(s: State, i: nat)
    requires i < |s.runs|
    ensures s.runs[i].stage.ProbeClaimed? ==> Touches(s, AfterProbeClaim(s, i), i, None, false)
    ensures s.runs[i].stage.Probed? ==> Touches(s, AfterProbe(s, i), i, None, false)
    ensures Touches(s, PromptTick(s, i), i, CarriedBy(s.runs[i].stage), false)
  {
    hide Touches, PromptShown, AfterProbeClaim, AfterProbe;
    if s.runs[i].stage.ProbeClaimed? { ClaimedTouches(s, i); }
    if s.runs[i].stage.Probed? { ProbedTouches(s, i); }
    Moved(s, PromptTick(s, i), i, CarriedBy(s.runs[i].stage), false);
  }

  lemma ChooseTouches(s: State, i: nat)
    requires i < |s.runs|
    ensures Touches(s, ChooseMode(s, i), i, None, false)
  {
    hide Touches;
    Moved(s, ChooseMode(s, i), i, None, false);
  }

  lemma ClaimedTouches(s: State, i: nat)
    requires i < |s.runs| && s.runs[i].stage.ProbeClaimed?
    ensures Touches(s, AfterProbeClaim(s, i), i, None, false)
  {
    hide Touches, End, ChooseMode, Still;
    var r := s.runs[i];
    Ended(s, i, r.AbortedOutcome(), None, false);
    Ended(s, i, Failed(TargetChanged), None, false);
    var s' := s.(runs := s.runs[i := r.(authorized := true)]);
    ChooseTouches(s', i);
    Via(s, s', ChooseMode(s', i), i, None, false);
  }

  lemma ProbedTouches(s: State, i: nat)
    requires i < |s.runs| && s.runs[i].stage.Probed?
    ensures Touches(s, AfterProbe(s, i), i, None, false)
  {
    hide Touches, End, Wait;
    var r := s.runs[i];
    Ended(s, i, r.AbortedOutcome(), None, false);
    Ended(s, i, Failed(TargetChanged), None, false);
    WaitTouches(s, i, ForCommand(r.stage.keyboard));
    Unproved(s, i, Failed(TerminalClosed));
    Unproved(s, i, Failed(TargetChanged));
    Unproved(s, i, Failed(ShellProbeFailed));
  }

  lemma Unproved(s: State, i: nat, outcome: Outcome)
    requires i < |s.runs|
    ensures Touches(s, End(s.(proof := None), i, outcome), i, None, false)
  {
    hide Touches;
    Moved(s, End(s.(proof := None), i, outcome), i, None, false);
  }

  lemma WaitTouches(s: State, i: nat, goal: Goal)
    requires i < |s.runs|
    requires ModeOk(s.runs[i]) ==> ModeFits(s.runs[i], if goal.ForIntegrated? then Integrated else Sentinel)
    ensures Touches(s, Wait(s, i, goal), i, None, false)
  {
    hide Touches;
    Moved(s, Wait(s, i, goal), i, None, false);
  }

  /** What a step of a run before its dispatch may write, and with which prompt. */
  lemma PreflightTouches(s: State, i: nat, e: RunEvent)
    requires i < |s.runs| && !s.runs[i].stage.Running?
    ensures var accepted := if Accepting(s, i, e).Some? then Accepting(s, i, e) else CarriedBy(s.runs[i].stage);
      Touches(s, PreflightStep(s, i, e), i, accepted, ProbeAllowed(s, i, e))
  {
    hide Touches, AfterWait, AfterProbeClaim, AfterProbe, AfterFinalClaim, PromptTick, ProbeAllowed, Still, Usable;
    var r, t := s.runs[i], PreflightStep(s, i, e);
    var carried := CarriedBy(r.stage);
    var accepted := if Accepting(s, i, e).Some? then Accepting(s, i, e) else carried;
    var probe := ProbeAllowed(s, i, e);
    OthersTouch(s, i);
    if e.Poll? {
      NoProbe(s, t, i, carried, probe);
    } else if e.Resume? && r.stage.Waited? {
      WaitedTouches(s, i, e.canWrite);
    } else if e.Resume? && (r.stage.ProbeClaimed? || r.stage.Probed?) {
      NoProbe(s, t, i, None, probe);
    } else if e.Resume? && r.stage.FinalClaimed? {
      FinalTouches(s, i, e.canWrite);
      NoProbe(s, t, i, carried, probe);
    } else if e.Finally? {
      FinallyTouches(s, i, accepted, probe);
    } else {
      Moved(s, t, i, accepted, probe);
    }
  }

  lemma FinallyTouches(s: State, i: nat, accepted: Option<Prompt>, probe: bool)
    requires i < |s.runs| && !s.runs[i].stage.Running?
    requires CarriedBy(s.runs[i].stage) in {None, accepted}
    ensures Touches(s, PreflightStep(s, i, Finally), i, accepted, probe)
  {
  }

  lemma FinalTouches(s: State, i: nat, canWrite: bool)
    requires i < |s.runs| && s.runs[i].stage.FinalClaimed?
    ensures Touches(s, AfterFinalClaim(s, i, canWrite), i, CarriedBy(s.runs[i].stage), false)
  {
    hide Touches, Dispatch;
    var r := s.runs[i];
    Ended(s, i, r.AbortedOutcome(), CarriedBy(r.stage), false);
    Ended(s, i, Failed(TargetChanged), CarriedBy(r.stage), false);
    DispatchTouches(s, i, r.stage.mode, r.stage.prompt, canWrite);
  }

  // ------------------------------------------------------------ starting and aborting

  /** The attestation a call presents, when it is still good. */
  function Presented(s: State, o: Options): Option<Binding> {
    if o.binding.Some? && o.binding.value in s.bindings then
      var b := s.bindings[o.binding.value];
      if b.here && s.now - b.capturedAt <= APPROVAL_PROMPT_TTL_MS then Some(b) else None
    else None
  }

  /** What a call does to the session: one more run, nothing written, its attestation
      used up, and an approved prompt only from a good one that still holds. */
  ghost predicate Starts(s: State, t: State, o: Options) {
    && |t.runs| == |s.runs| + 1 && t.runs[..|s.runs|] == s.runs && t.log == s.log && t.w == s.w && t.now == s.now
    && var r := t.runs[|s.runs|];
       && r.o == o && r.startedAt == s.now && r.remote == s.w.remote
       && CarriedBy(r.stage).None? && !r.stage.Waited? && JobOf(r.stage).None? && ModeOk(r)
       && t.bindings == (if r.reserved && o.binding.Some? then s.bindings - {o.binding.value} else s.bindings)
       && (r.approved.Some? ==>
             && r.reserved && Presented(s, o).Some? && r.approved.value == Presented(s, o).value.prompt
             && Still(r.approved.value, s.w))
  }

  lemma StartStarts(s: State, o: Options)
    ensures Starts(s, Start(s, o), o)
  {
    hide Begin, Still;
    if o.sane && s.job.None? && s.reservation.None? && s.w.Live() && !((s.w.remote.Some? || o.nonceCompletion) && !o.suffixable) {
      BeginStarts(s, o);
    }
  }

  lemma BeginStarts(s: State, o: Options)
    ensures var r := Run(o, s.now, s.w.remote, true, false, None, None, false, ProbeClaim);
      Starts(s, Begin(s.(runs := s.runs + [r], reservation := Some(o.approval)), |s.runs|), o)
  {
    hide Still, Usable, Wait;
    var i := |s.runs|;
    var r := Run(o, s.now, s.w.remote, true, false, None, None, false, ProbeClaim);
    var s0 := s.(runs := s.runs + [r], reservation := Some(o.approval));
    var t := Begin(s0, i);
    var kept := if o.binding.Some? then s.bindings - {o.binding.value} else s.bindings;
    assert o.binding.Some? && o.binding.value !in s.bindings ==> kept == s.bindings;
    var approved := if Presented(s, o).Some? then Some(Presented(s, o).value.prompt) else None;
    var s2 := s0.(bindings := kept, runs := s.runs + [r.(approved := approved)]);
    assert s0.runs[i := r.(approved := approved)] == s2.runs;
    ChooseOnly(s2, i);
    ChooseOnly(s2.(proof := None), i);
  }

  /** Choosing a mode changes the run's stage and nothing else. */
  lemma ChooseOnly(s: State, i: nat)
    requires i < |s.runs|
    ensures var t := ChooseMode(s, i);
      && |t.runs| == |s.runs| && t == s.At(i, t.runs[i].stage)
      && (t.runs[i].stage == Settled(Failed(TargetChanged), None) || t.runs[i].stage.Waiting?) && ModeOk(t.runs[i])
  {
  }

  /** What an abort does: no run is added, and only stages change. */
  ghost predicate Aborts(s: State, t: State) {
    && |t.runs| == |s.runs| && t.log == s.log && t.w == s.w && t.now == s.now && t.bindings == s.bindings
    && forall i :: 0 <= i < |s.runs| ==>
         && Same(s.runs[i], t.runs[i]) && CarriedBy(t.runs[i].stage) == CarriedBy(s.runs[i].stage)
         && (t.runs[i].stage.Waited? ==> t.runs[i].stage == s.runs[i].stage)
         && JobOf(t.runs[i].stage) == JobOf(s.runs[i].stage) && (t.runs[i].stage.Running? ==> s.runs[i].stage.Running?)
         && ModeOf(t.runs[i].stage) in {None, ModeOf(s.runs[i].stage)}
         && (t.runs[i].stage.Settled? && !s.runs[i].stage.Settled? ==> s.runs[i].stage.Running? && s.job == Some(i))
  }

  lemma AbortAborts(s: State, reason: AbortReason, expected: Option<nat>)
    ensures Aborts(s, AbortSession(s, reason, expected))
  {
    var t := AbortSession(s, reason, expected);
    forall i | 0 <= i < |s.runs|
      ensures Same(s.runs[i], t.runs[i]) && CarriedBy(t.runs[i].stage) == CarriedBy(s.runs[i].stage)
      ensures t.runs[i].stage.Waited? ==> t.runs[i].stage == s.runs[i].stage
      ensures JobOf(t.runs[i].stage) == JobOf(s.runs[i].stage) && (t.runs[i].stage.Running? ==> s.runs[i].stage.Running?)
      ensures ModeOf(t.runs[i].stage) in {None, ModeOf(s.runs[i].stage)}
      ensures t.runs[i].stage.Settled? && !s.runs[i].stage.Settled? ==> s.runs[i].stage.Running? && s.job == Some(i)
    {
    }
  }

  // ------------------------------------------------------------ where a line's prompt came from

  /** Run i saw a prompt in its n-th event, having waited for this. */
  ghost predicate SawPrompt(events: seq<Event>, n: nat, i: nat, goal: Goal) {
    && n < |events| && events[n].On? && events[n].run == i
    && i < |Before(events, n).runs| && SeesPrompt(Before(events, n), i, events[n].e, goal)
  }

  /** Run i accepted prompt p in the n-th event, a prompt it had seen before. */
  ghost predicate Accepted(events: seq<Event>, n: nat, i: nat, p: Prompt) {
    && n < |events| && events[n].On? && events[n].run == i
    && i < |Before(events, n).runs| && Accepting(Before(events, n), i, events[n].e) == Some(p)
    && (var w := Before(events, n).w; p == Prompt(w.entry, w.alternate, w.row, w.cursorX, w.dataAt, w.inputAt))
    && exists m :: 0 <= m < n && SawPrompt(events, m, i, Before(events, n).runs[i].stage.goal)
  }

  ghost predicate HasAccepted(events: seq<Event>, n: nat, i: nat, p: Prompt) {
    exists m :: 0 <= m < n && Accepted(events, m, i, p)
  }

  /** Run i was allowed to type its probe in the n-th event, into the terminal as it was. */
  ghost predicate Permitted(events: seq<Event>, n: nat, i: nat, w: World) {
    && n < |events| && events[n].On? && events[n].run == i
    && i < |Before(events, n).runs| && ProbeAllowed(Before(events, n), i, events[n].e) && Before(events, n).w == w
  }

  ghost predicate Traced(events: seq<Event>, n: nat, x: Entry) {
    match x
    case Line(i, _, p, _) => HasAccepted(events, n, i, p)
    case Probe(i, w) => exists m :: 0 <= m < n && Permitted(events, m, i, w)
    case Key(_, _) => true
  }

  /** A run that carries a prompt accepted it, and one that has a prompt saw it. */
  ghost predicate StageTraced(events: seq<Event>, n: nat, i: nat, stage: Stage) {
    && (CarriedBy(stage).Some? ==> HasAccepted(events, n, i, CarriedBy(stage).value))
    && (stage.Waited? && stage.result.Ready? ==> exists m :: 0 <= m < n && SawPrompt(events, m, i, stage.goal))
  }

  ghost predicate PromptsTraced(events: seq<Event>, n: nat)
    requires n <= |events|
  {
    var s := Before(events, n);
    && (forall k :: 0 <= k < |s.log| ==> Traced(events, n, s.log[k]))
    && (forall i :: 0 <= i < |s.runs| ==> StageTraced(events, n, i, s.runs[i].stage))
  }

  /** Every run, and every line that was typed, goes by the mode that fits the run. */
  ghost predicate ModesFit(s: State) {
    && (forall i :: 0 <= i < |s.runs| ==> ModeOk(s.runs[i]))
    && (forall k :: 0 <= k < |s.log| && s.log[k].Line? ==>
          s.log[k].run < |s.runs| && ModeFits(s.runs[s.log[k].run], s.log[k].mode))
  }

  lemma StepModes(s: State, e: Event)
    requires ModesFit(s)
    ensures ModesFit(Step(s, e))
  {
    hide Start, AbortSession, JobStep, PreflightStep, Accepting, ProbeAllowed, Follows, ModeOf, CarriedBy, Blank;
    match e
    case Call(o) =>
      StartStarts(s, o);
      assert forall i :: 0 <= i < |s.runs| ==> Step(s, e).runs[i] == Step(s, e).runs[..|s.runs|][i];
    case Abort(reason, expected) => AbortAborts(s, reason, expected);
    case On(j, e) => if j < |s.runs| { RunTouches(s, j, e); }
    case _ =>
  }

  lemma {:induction false} ModesAlwaysFit(s: State, events: seq<Event>)
    requires ModesFit(s)
    ensures ModesFit(Execute(s, events))
    decreases |events|
  {
    hide ModesFit, Step;
    if events != [] {
      StepModes(s, events[0]);
      ModesAlwaysFit(Step(s, events[0]), events[1..]);
    }
  }

  lemma Later(events: seq<Event>, n: nat, x: Entry, i: nat, stage: Stage)
    ensures Traced(events, n, x) ==> Traced(events, n + 1, x)
    ensures StageTraced(events, n, i, stage) ==> StageTraced(events, n + 1, i, stage)
  {
    hide Accepted, Permitted, SawPrompt, CarriedBy;
  }

  lemma ReadyIsSeen(s: State, i: nat, e: RunEvent)
    requires i < |s.runs| && s.runs[i].stage.Waiting?
    ensures var stage := PreflightStep(s, i, e).runs[i].stage;
      stage.Waited? && stage.result.Ready? ==> SeesPrompt(s, i, e, stage.goal)
  {
  }

  lemma StageIsTraced(events: seq<Event>, n: nat, s: State, i: nat, e: RunEvent, accepted: Option<Prompt>, after: Stage)
    requires n < |events| && s == Before(events, n) && events[n] == On(i, e) && i < |s.runs|
    requires StageTraced(events, n, i, s.runs[i].stage)
    requires accepted.Some? ==> HasAccepted(events, n + 1, i, accepted.value)
    requires CarriedBy(after) in {None, accepted} && Follows(s.runs[i].stage, after)
    requires s.runs[i].stage.Waiting? ==> after == PreflightStep(s, i, e).runs[i].stage
    ensures StageTraced(events, n + 1, i, after)
  {
    hide HasAccepted, PreflightStep, SeesPrompt;
    if after.Waited? && after.result.Ready? && after != s.runs[i].stage {
      ReadyIsSeen(s, i, e);
      assert SawPrompt(events, n, i, after.goal);
    }
  }

  /** What one run's event adds to the log, and the stage it leaves behind, are traced. */
  lemma RunTraced(events: seq<Event>, n: nat)
    requires n < |events| && PromptsTraced(events, n) && events[n].On? && events[n].run < |Before(events, n).runs|
    ensures PromptsTraced(events, n + 1)
  {
    hide Accepting, ProbeAllowed, JobStep, PreflightStep, Same, Follows, Traced, StageTraced, HasAccepted;
    var s, i, e := Before(events, n), events[n].run, events[n].e;
    var t := Step(s, events[n]);
    BeforeNext(events, n);
    var accepted := if Accepting(s, i, e).Some? then Accepting(s, i, e) else CarriedBy(s.runs[i].stage);
    var probe := ProbeAllowed(s, i, e);
    RunTouches(s, i, e);
    AcceptedIsTraced(events, n, accepted);
    StageIsTraced(events, n, s, i, e, accepted, t.runs[i].stage);
    forall k | 0 <= k < |t.log| ensures Traced(events, n + 1, t.log[k]) {
      if k < |s.log| {
        Later(events, n, s.log[k], i, s.runs[i].stage);
        assert t.log[k] == s.log[k];
      } else {
        EntryTraced(events, n, t.log[k], accepted);
      }
    }
    forall j | 0 <= j < |t.runs| ensures StageTraced(events, n + 1, j, t.runs[j].stage) {
      Later(events, n, Key(0, User), j, s.runs[j].stage);
    }
  }

  lemma AcceptedIsTraced(events: seq<Event>, n: nat, accepted: Option<Prompt>)
    requires n < |events| && PromptsTraced(events, n) && events[n].On? && events[n].run < |Before(events, n).runs|
    requires var s, i, e := Before(events, n), events[n].run, events[n].e;
      accepted == if Accepting(s, i, e).Some? then Accepting(s, i, e) else CarriedBy(s.runs[i].stage)
    ensures accepted.Some? ==> HasAccepted(events, n + 1, events[n].run, accepted.value)
  {
    hide SawPrompt, Traced;
    var s, i, e := Before(events, n), events[n].run, events[n].e;
    var stage := s.runs[i].stage;
    assert StageTraced(events, n, i, stage);
    if Accepting(s, i, e).Some? {
      var m :| 0 <= m < n && SawPrompt(events, m, i, stage.goal);
      assert Accepted(events, n, i, accepted.value);
    }
  }

  lemma EntryTraced(events: seq<Event>, n: nat, x: Entry, accepted: Option<Prompt>)
    requires n < |events| && events[n].On? && events[n].run < |Before(events, n).runs|
    requires accepted.Some? ==> HasAccepted(events, n + 1, events[n].run, accepted.value)
    requires var s, i, e := Before(events, n), events[n].run, events[n].e;
      Licensed(x, i, s.w, accepted, ProbeAllowed(s, i, e))
    ensures Traced(events, n + 1, x)
  {
    hide ProbeAllowed, HasAccepted;
    if x.Probe? { assert Permitted(events, n, x.run, x.at); }
  }

  lemma RunTouches(s: State, i: nat, e: RunEvent)
    requires i < |s.runs|
    ensures var accepted := if Accepting(s, i, e).Some? then Accepting(s, i, e) else CarriedBy(s.runs[i].stage);
      Touches(s, Step(s, On(i, e)), i, accepted, ProbeAllowed(s, i, e))
  {
    hide JobStep, PreflightStep, Touches, ProbeAllowed;
    if s.runs[i].stage.Running? {
      JobTouches(s, i, e);
      NoProbe(s, JobStep(s, i, e), i, None, ProbeAllowed(s, i, e));
    } else {
      PreflightTouches(s, i, e);
    }
  }

  lemma StepTraced(events: seq<Event>, n: nat)
    requires n < |events| && PromptsTraced(events, n)
    ensures PromptsTraced(events, n + 1)
  {
    hide Start, AbortSession, JobStep, PreflightStep, Traced, StageTraced, HasAccepted, CarriedBy, Same;
    var s := Before(events, n);
    BeforeNext(events, n);
    if events[n].On? && events[n].run < |s.runs| {
      RunTraced(events, n);
    } else {
      var t := Before(events, n + 1);
      if events[n].Call? { StartStarts(s, events[n].o); }
      if events[n].Abort? { AbortAborts(s, events[n].reason, events[n].expected); }
      forall k | 0 <= k < |t.log| ensures Traced(events, n + 1, t.log[k]) { Later(events, n, s.log[k], 0, ProbeClaim); }
      forall i | 0 <= i < |t.runs| ensures StageTraced(events, n + 1, i, t.runs[i].stage) {
        if i < |s.runs| {
          Later(events, n, Key(0, User), i, s.runs[i].stage);
          StageLike(events, n + 1, i, s.runs[i].stage, t.runs[i].stage);
        } else {
          StageLike(events, n + 1, i, ProbeClaim, t.runs[i].stage);
        }
      }
    }
  }

  lemma StageLike(events: seq<Event>, n: nat, i: nat, before: Stage, after: Stage)
    requires CarriedBy(after) in {None, CarriedBy(before)} && (after.Waited? ==> after == before)
    ensures StageTraced(events, n, i, ProbeClaim)
    ensures StageTraced(events, n, i, before) ==> StageTraced(events, n, i, after)
  {
    hide HasAccepted, SawPrompt;
  }

  lemma {:induction false} PromptsAreTraced(events: seq<Event>, n: nat)
    requires n <= |events|
    ensures PromptsTraced(events, n)
  {
    hide PromptsTraced;
    if n == 0 {
      NothingYet(events);
    } else {
      PromptsAreTraced(events, n - 1);
      StepTraced(events, n - 1);
    }
  }

  lemma NothingYet(events: seq<Event>)
    ensures PromptsTraced(events, 0)
  {
  }

  // ------------------------------------------------------------ where an approval came from

  function Taken(s: State, here: bool): Binding { Binding(PromptOf(s.w), here, s.now) }

  /** The m-th event captured this token's binding, which is still there before the n-th. */
  ghost predicate Captured(events: seq<Event>, m: nat, n: nat, token: nat)
    requires n <= |events|
  {
    && m < n && events[m].Capture? && events[m].token == token && Capturable(Before(events, m).w)
    && forall x :: m < x <= n ==>
         token in Before(events, x).bindings && Before(events, x).bindings[token] == Taken(Before(events, m), events[m].here)
  }

  /** The n-th event starts run i and uses up what the m-th captured: in this very
      session, at most thirty seconds before, with the terminal still as it was then. */
  ghost predicate Granted(events: seq<Event>, m: nat, n: nat, i: nat) {
    && m < n < |events| && events[n].Call? && |Before(events, n).runs| == i
    && events[n].o.binding.Some? && Captured(events, m, n, events[n].o.binding.value) && events[m].here
    && Before(events, n).now <= Before(events, m).now + 30_000
    && Untouched(PromptOf(Before(events, m).w), Before(events, n).w)
    && events[n].o.binding.value !in Before(events, n + 1).bindings
  }

  /** The run's approved prompt is the one that was visible at such a capture. */
  ghost predicate GrantedTo(events: seq<Event>, m: nat, n: nat, i: nat, r: Run) {
    && Granted(events, m, n, i) && r.approved == Some(PromptOf(Before(events, m).w))
    && r.o == events[n].o && r.startedAt == Before(events, n).now
  }

  ghost predicate HasGrant(events: seq<Event>, n: nat, i: nat, r: Run) {
    r.approved.Some? ==> exists m, k :: 0 <= m < k < n && GrantedTo(events, m, k, i, r)
  }

  ghost predicate Bound(events: seq<Event>, n: nat, token: nat)
    requires n <= |events|
  {
    token in Before(events, n).bindings ==> exists m :: 0 <= m < n && Captured(events, m, n, token)
  }

  ghost predicate GrantsTraced(events: seq<Event>, n: nat)
    requires n <= |events|
  {
    && (forall token {:trigger Bound(events, n, token)} :: Bound(events, n, token))
    && (forall i :: 0 <= i < |Before(events, n).runs| ==> HasGrant(events, n, i, Before(events, n).runs[i]))
  }

  /** What a binding is after one more event. */
  lemma StepBinds(s: State, e: Event, token: nat)
    ensures var t := Step(s, e);
      token in t.bindings ==>
        || (token in s.bindings && t.bindings[token] == s.bindings[token])
        || (e.Capture? && e.token == token && Capturable(s.w) && t.bindings[token] == Taken(s, e.here))
  {
    hide Start, AbortSession, JobStep, PreflightStep, Capturable, Accepting, ProbeAllowed, Licensed;
    match e
    case Call(o) => StartStarts(s, o);
    case Abort(reason, expected) => AbortAborts(s, reason, expected);
    case On(i, e) => if i < |s.runs| { RunTouches(s, i, e); }
    case _ =>
  }

  lemma StepBound(events: seq<Event>, n: nat, token: nat)
    requires n < |events| && Bound(events, n, token)
    ensures Bound(events, n + 1, token)
  {
    hide Step, Capturable, Before;
    var s, t := Before(events, n), Before(events, n + 1);
    BeforeNext(events, n);
    StepBinds(s, events[n], token);
    if token in t.bindings {
      if token in s.bindings && t.bindings[token] == s.bindings[token] {
        var m :| 0 <= m < n && Captured(events, m, n, token);
        assert Captured(events, m, n + 1, token);
      } else {
        assert Captured(events, n, n + 1, token);
      }
    }
  }

  /** The runs there are keep who they are and what they were approved for. */
  lemma StepSame(s: State, e: Event, i: nat)
    requires i < |s.runs|
    ensures i < |Step(s, e).runs| && Same(s.runs[i], Step(s, e).runs[i])
  {
    hide Start, AbortSession, JobStep, PreflightStep, Accepting, ProbeAllowed, Licensed;
    match e
    case Call(o) =>
      StartStarts(s, o);
      assert Step(s, e).runs[i] == Step(s, e).runs[..|s.runs|][i];
    case Abort(reason, expected) => AbortAborts(s, reason, expected);
    case On(j, e) => if j < |s.runs| { RunTouches(s, j, e); }
    case _ =>
  }

  lemma StepRuns(s: State, e: Event)
    ensures |Step(s, e).runs| == |s.runs| + (if e.Call? then 1 else 0)
  {
    hide Start, AbortSession, JobStep, PreflightStep, Accepting, ProbeAllowed, Licensed;
    match e
    case Call(o) => StartStarts(s, o);
    case Abort(reason, expected) => AbortAborts(s, reason, expected);
    case On(j, e) => if j < |s.runs| { RunTouches(s, j, e); }
    case _ =>
  }

  /** A call that gets an approved prompt was granted it. */
  lemma CallGranted(events: seq<Event>, n: nat)
    requires n < |events| && events[n].Call?
    requires forall token {:trigger Bound(events, n, token)} :: Bound(events, n, token)
    ensures var i := |Before(events, n).runs|;
      i < |Before(events, n + 1).runs| && HasGrant(events, n + 1, i, Before(events, n + 1).runs[i])
  {
    hide Step, Still, Untouched, Before;
    var s, o := Before(events, n), events[n].o;
    BeforeNext(events, n);
    assert Step(s, events[n]) == Start(s, o) by { CallStarts(s, o); }
    StartStarts(s, o);
    var r := Before(events, n + 1).runs[|s.runs|];
    if r.approved.Some? {
      var token := o.binding.value;
      assert Bound(events, n, token);
      var m :| 0 <= m < n && Captured(events, m, n, token);
      assert s.bindings[token] == Taken(Before(events, m), events[m].here);
      StillIsUntouched(r.approved.value, s.w);
      assert GrantedTo(events, m, n, |s.runs|, r);
    }
  }

  lemma CallStarts(s: State, o: Options)
    ensures Step(s, Call(o)) == Start(s, o)
  {
  }

  lemma {:induction false} GrantsAreTraced(events: seq<Event>, n: nat)
    requires n <= |events|
    ensures GrantsTraced(events, n)
  {
    hide Bound, HasGrant, Step;
    if n == 0 {
      NoGrantYet(events);
    } else {
      var s, t := Before(events, n - 1), Before(events, n);
      GrantsAreTraced(events, n - 1);
      BeforeNext(events, n - 1);
      StepRuns(s, events[n - 1]);
      forall token ensures Bound(events, n, token) {
        assert Bound(events, n - 1, token);
        StepBound(events, n - 1, token);
      }
      if events[n - 1].Call? { CallGranted(events, n - 1); }
      forall i | 0 <= i < |s.runs| ensures HasGrant(events, n, i, t.runs[i]) {
        StepSame(s, events[n - 1], i);
        GrantStays(events, n - 1, i, s.runs[i], t.runs[i]);
      }
    }
  }

  lemma GrantStays(events: seq<Event>, n: nat, i: nat, r: Run, r': Run)
    requires HasGrant(events, n, i, r) && Same(r, r')
    ensures HasGrant(events, n + 1, i, r')
  {
    hide Granted;
    if r.approved.Some? {
      var m, k :| 0 <= m < k < n && GrantedTo(events, m, k, i, r);
      assert GrantedTo(events, m, k, i, r');
    }
  }

  lemma NoGrantYet(events: seq<Event>)
    ensures GrantsTraced(events, 0)
  {
  }

  /** Every approved prompt was visible when the operator attested to it, in the session
      and for the call that presents the token, at most thirty seconds before the start. */
  lemma ApprovalIsFresh(events: seq<Event>, i: nat)
    requires i < |Execute(INITIAL, events).runs| && Execute(INITIAL, events).runs[i].approved.Some?
    ensures exists m, n :: 0 <= m < n < |events| && GrantedTo(events, m, n, i, Execute(INITIAL, events).runs[i])
  {
    hide GrantedTo;
    BeforeEnds(events);
    GrantsAreTraced(events, |events|);
    assert HasGrant(events, |events|, i, Before(events, |events|).runs[i]);
  }

  /** One capture never serves two calls. */
  lemma ApprovalIsOneShot(events: seq<Event>, m: nat, n: nat, i: nat, n': nat, i': nat)
    requires Granted(events, m, n, i) && Granted(events, m, n', i')
    ensures n == n' && i == i'
  {
    hide Captured, Before, Still, Capturable;
    SameToken(events, m, n, events[n].o.binding.value);
    SameToken(events, m, n', events[n'].o.binding.value);
    UsedUp(events, m, n, i, n');
    UsedUp(events, m, n', i', n);
  }

  lemma SameToken(events: seq<Event>, m: nat, n: nat, token: nat)
    requires n <= |events| && Captured(events, m, n, token)
    ensures events[m].Capture? && events[m].token == token
  {
  }

  /** What a call used up is not there for a later one. */
  lemma UsedUp(events: seq<Event>, m: nat, n: nat, i: nat, n': nat)
    requires Granted(events, m, n, i) && n' <= |events| && Captured(events, m, n', events[n].o.binding.value)
    ensures n' <= n
  {
    hide Before, Still, Capturable;
  }
}
