/** Where a reported completion comes from, told from the events alone: which block or
    token of the terminal a run settles on. */
module ExecReports {
  import opened Basics
  import opened ExecModel
  import opened ExecHistory
  import ExecSafety

  // ------------------------------------------------------------ how a job moves

  /** The completion an event is for a job: the end of the block it is bound to, or its own
      token. */
  function CompletionOf(job: Job, e: RunEvent): Option<int> {
    match e
    case Ended(block, exit) => if job.mode.Integrated? && job.bound == Some(block) then Some(exit) else None
    case Token(exit, mine) => if job.mode.Sentinel? && mine then Some(exit) else None
    case _ => None
  }

  function BoundBy(job: Job, e: RunEvent): Option<nat> {
    if e.Started? && e.ours && job.mode.Integrated? && job.bound.None? then Some(e.block) else job.bound
  }

  /** The job is what it was but for what the event says. */
  predicate Evolves(job: Job, job': Job, e: RunEvent) {
    && job'.mode == job.mode && job'.bound == BoundBy(job, e)
    && match CompletionOf(job, e)
       case None => job'.completions == job.completions
       case Some(x) =>
         |job'.completions| == |job.completions| + 1 && job'.completions[..|job.completions|] == job.completions
         && job'.completions[|job.completions|].exit == Some(x)
  }

  ghost predicate Steps(s: State, t: State, i: nat, e: RunEvent) {
    && i < |s.runs| && i < |t.runs| && s.runs[i].stage.Running?
    && (t.runs[i].stage.Running? || t.runs[i].stage.Settled?)
    && JobOf(t.runs[i].stage).Some? && Evolves(s.runs[i].stage.job, JobOf(t.runs[i].stage).value, e)
  }

  predicate Silent(e: RunEvent) { !e.Started? && !e.Ended? && !e.Token? }

  lemma UpdateSteps(s: State, i: nat, e: RunEvent, job: Job)
    requires i < |s.runs| && s.runs[i].stage.Running? && Evolves(s.runs[i].stage.job, job, e)
    ensures Steps(s, Update(s, i, job), i, e)
    ensures forall x: Entry :: Steps(s, Update(s, i, job).Write(x), i, e)
    ensures forall outcome :: Steps(s, Finish(Update(s, i, job), i, outcome), i, e)
  {
    hide Evolves;
  }

  lemma FinishSteps(s: State, i: nat, e: RunEvent, outcome: Outcome)
    requires i < |s.runs| && s.runs[i].stage.Running? && Evolves(s.runs[i].stage.job, s.runs[i].stage.job, e)
    ensures Steps(s, Finish(s, i, outcome), i, e) && Steps(s, s, i, e)
  {
    hide Evolves;
  }

  lemma SilentEvolves(job: Job, job': Job, e: RunEvent)
    requires Silent(e) && job' == job.(cause := job'.cause, pending := job'.pending, confirmed := job'.confirmed,
      buffered := job'.buffered, ladder := job'.ladder, stall := job'.stall, paused := job'.paused, lastTick := job'.lastTick,
      bindAt := job'.bindAt, deliveryAt := job'.deliveryAt, graceAt := job'.graceAt, deadlineAt := job'.deadlineAt,
      refreshAt := job'.refreshAt, gestureAt := job'.gestureAt)
    ensures Evolves(job, job', e)
  {
  }

  lemma KeysStep(s: State, i: nat, e: RunEvent, thrown: bool, delivered: bool)
    requires i < |s.runs| && s.runs[i].stage.Running? && Silent(e)
    ensures Steps(s, UserInterrupt(s, i, thrown), i, e) && Steps(s, SigintAnswered(s, i, delivered), i, e)
  {
    hide Steps, Evolves, Finish, ArmGrace, Update;
    var job := s.runs[i].stage.job;
    SilentEvolves(job, job, e);
    FinishSteps(s, i, e, Failed(InterruptFailed));
    var asked := job.(pending := true, cause := Some(User), gestureAt := Some(s.now));
    SilentEvolves(job, asked, e);
    UpdateSteps(s, i, e, asked);
    var armed := asked.(deliveryAt := Some(s.now + USER_INTERRUPT_DELIVERY_TIMEOUT_MS));
    SilentEvolves(job, armed, e);
    UpdateSteps(s, i, e, armed);
    var known := job.(confirmed := true, deliveryAt := None);
    SilentEvolves(job, known.(buffered := None), e);
    UpdateSteps(s, i, e, known.(buffered := None));
    GraceOnly(known, s.now);
    SilentEvolves(job, ArmGrace(known, s.now), e);
    UpdateSteps(s, i, e, ArmGrace(known, s.now));
  }

  lemma GraceOnly(job: Job, now: int)
    ensures ArmGrace(job, now) == job.(graceAt := ArmGrace(job, now).graceAt)
  {
  }

  lemma LadderSteps(s: State, i: nat, e: RunEvent)
    requires i < |s.runs| && s.runs[i].stage.Running? && Silent(e)
    ensures Steps(s, KeyAnswered(s, i), i, e) && Steps(s, LadderStep(s, i), i, e)
  {
    hide Steps, Evolves, Finish, ArmGrace, Update;
    var job := s.runs[i].stage.job;
    SilentEvolves(job, job, e);
    FinishSteps(s, i, e, Failed(InterruptFailed));
    GraceOnly(job.(ladder := None), s.now);
    var graced := ArmGrace(job.(ladder := None), s.now);
    SilentEvolves(job, graced, e);
    UpdateSteps(s, i, e, graced);
    if job.ladder.Some? {
      var waited := job.(ladder := Some(job.ladder.value.(stepAt := Some(s.now + LADDER_STEP_MS))));
      SilentEvolves(job, waited, e);
      UpdateSteps(s, i, e, waited);
      var climbed := job.(ladder := Some(Ladder(job.ladder.value.keys + 1, None)));
      SilentEvolves(job, climbed, e);
      UpdateSteps(s, i, e, climbed);
    }
  }

  lemma ScreenSteps(s: State, i: nat, e: RunEvent)
    requires i < |s.runs| && s.runs[i].stage.Running? && Silent(e)
    ensures Steps(s, TuiInterrupt(Update(s, i, s.runs[i].stage.job.(stall := Some(Hijacked))), i), i, e)
  {
    hide Steps, Evolves;
    var job := s.runs[i].stage.job;
    SilentEvolves(job, job, e);
    FinishSteps(s, i, e, Failed(InterruptFailed));
    var held := job.(stall := Some(Hijacked));
    SilentEvolves(job, held, e);
    UpdateSteps(s, i, e, held);
    var led := held.(ladder := Some(Ladder(1, None)), cause := Some(Tui));
    SilentEvolves(job, led, e);
    UpdateSteps(s, i, e, led);
    assert Update(Update(s, i, held), i, led) == Update(s, i, led);
  }

  lemma RefreshSteps(s: State, i: nat, e: RunEvent)
    requires i < |s.runs| && s.runs[i].stage.Running? && Silent(e)
    ensures Steps(s, Refresh(s, i), i, e)
  {
    hide Steps, Evolves, ClassifyStall;
    var job := s.runs[i].stage.job;
    SilentEvolves(job, job, e);
    FinishSteps(s, i, e, Failed(NotObserved));
    var next := job.(refreshAt := s.now + CARD_REFRESH_MS);
    SilentEvolves(job, next, e);
    UpdateSteps(s, i, e, next);
    var charged := next.(
      paused := if job.stall == Some(Password) then job.paused + (s.now - job.lastTick) else job.paused,
      lastTick := s.now,
      stall := ClassifyStall(job, s.w, s.now));
    SilentEvolves(job, charged, e);
    UpdateSteps(s, i, e, charged);
  }

  lemma FireSteps(s: State, i: nat, e: RunEvent, timer: Timer)
    requires i < |s.runs| && s.runs[i].stage.Running? && Silent(e)
    ensures Steps(s, Fire(s, i, timer), i, e)
  {
    hide Steps, Evolves, Finish, Update;
    var r, job := s.runs[i], s.runs[i].stage.job;
    SilentEvolves(job, job, e);
    FinishSteps(s, i, e, Failed(NotObserved));
    FinishSteps(s, i, e, Failed(InterruptFailed));
    FinishSteps(s, i, e, Failed(Interrupted));
    FinishSteps(s, i, e, Failed(Timeout));
    SilentEvolves(job, job.(bindAt := None), e);
    UpdateSteps(s, i, e, job.(bindAt := None));
    SilentEvolves(job, job.(deliveryAt := None), e);
    UpdateSteps(s, i, e, job.(deliveryAt := None));
    SilentEvolves(job, job.(deadlineAt := None), e);
    UpdateSteps(s, i, e, job.(deadlineAt := None));
    var later := job.(deadlineAt := Some(s.now + (r.o.timeout - (s.now - r.startedAt - job.paused))));
    SilentEvolves(job, later, e);
    UpdateSteps(s, i, e, later);
  }

  lemma BlockSteps(s: State, i: nat, block: nat, ours: bool)
    requires i < |s.runs| && s.runs[i].stage.Running?
    ensures Steps(s, BlockStarted(s, i, block, ours), i, Started(block, ours))
  {
    hide Steps, Finish, Update;
    var job, e := s.runs[i].stage.job, Started(block, ours);
    if job.mode.Sentinel? || job.bound.Some? {
      FinishSteps(s, i, e, Failed(NotObserved));
    } else if ours {
      UpdateSteps(s, i, e, job.(bound := Some(block)));
    } else {
      FinishSteps(s, i, e, Failed(NotObserved));
      UpdateSteps(s, i, e, job.(foreign := job.foreign + 1));
    }
  }

  /** Keeping or reporting a completion adds it to those the job has seen. */
  lemma CompleteSteps(s: State, i: nat, e: RunEvent, exit: int)
    requires i < |s.runs| && s.runs[i].stage.Running? && CompletionOf(s.runs[i].stage.job, e) == Some(exit)
    ensures Steps(s, Complete(s, i, exit), i, e)
  {
    hide Steps, Finish, Update;
    var job := s.runs[i].stage.job;
    var outcome := Outcome(Some(exit), if job.cause.Some? then Some(Interrupted) else None, false);
    var seen := job.(completions := job.completions + [outcome]);
    UpdateSteps(s, i, e, seen);
    UpdateSteps(s, i, e, seen.(buffered := Some(outcome)));
  }

  lemma TokenSteps(s: State, i: nat, exit: int, mine: bool)
    requires i < |s.runs| && s.runs[i].stage.Running?
    ensures Steps(s, TokenSeen(s, i, exit, mine), i, Token(exit, mine))
  {
    hide Steps, Complete;
    var job, e := s.runs[i].stage.job, Token(exit, mine);
    if job.mode.Integrated? || !mine {
      FinishSteps(s, i, e, Failed(NotObserved));
    } else {
      var renewed := if s.runs[i].remote.Some? && s.proof.Some? then Some(s.proof.value.(provenAt := s.now)) else s.proof;
      var s' := Update(s.(proof := renewed), i, job.(proved := true));
      CompleteSteps(s', i, e, exit);
      ProvedSteps(s, s', Complete(s', i, exit), i, e);
    }
  }

  lemma ProvedSteps(s: State, s': State, t: State, i: nat, e: RunEvent)
    requires i < |s.runs| && s.runs[i].stage.Running? && |s'.runs| == |s.runs|
    requires s'.runs[i].stage == Running(s.runs[i].stage.job.(proved := true)) && Steps(s', t, i, e)
    ensures Steps(s, t, i, e)
  {
  }

  lemma JobEvolves(s: State, i: nat, e: RunEvent)
    requires i < |s.runs| && s.runs[i].stage.Running?
    ensures Steps(s, JobStep(s, i, e), i, e)
  {
    hide Steps, Evolves, UserInterrupt, TuiInterrupt, SigintAnswered, Finish, KeyAnswered, LadderStep, BlockStarted, Complete,
      TokenSeen, Refresh, Fire;
    var job := s.runs[i].stage.job;
    if Silent(e) {
      SilentEvolves(job, job, e);
      FinishSteps(s, i, e, Failed(TerminalClosed));
      KeysStep(s, i, e, if e.Gesture? then e.thrown else false, if e.SigintReply? then e.delivered else false);
      LadderSteps(s, i, e);
      ScreenSteps(s, i, e);
      RefreshSteps(s, i, e);
      if e.Alarm? { FireSteps(s, i, e, e.timer); }
    } else if e.Started? {
      BlockSteps(s, i, e.block, e.ours);
    } else if e.Token? {
      TokenSteps(s, i, e.exit, e.mine);
    } else if job.mode.Integrated? && job.bound == Some(e.block) {
      CompleteSteps(s, i, e, e.exit);
    } else {
      OtherBlock(job, e);
      FinishSteps(s, i, e, Failed(TerminalClosed));
    }
  }

  lemma OtherBlock(job: Job, e: RunEvent)
    requires e.Ended? && !(job.mode.Integrated? && job.bound == Some(e.block))
    ensures Evolves(job, job, e)
  {
  }

  // ------------------------------------------------------------ what the events say

  /** Run i has a live job before the k-th event. */
  ghost predicate RunsAt(events: seq<Event>, k: nat, i: nat) {
    k < |events| && i < |Before(events, k).runs| && Before(events, k).runs[i].stage.Running?
  }

  /** The m-th event is the first start of a block that is the command's own. */
  ghost predicate FirstStart(events: seq<Event>, m: nat, i: nat, block: nat) {
    && RunsAt(events, m, i) && events[m] == On(i, Started(block, true))
    && forall k, other :: 0 <= k < m && RunsAt(events, k, i) ==> events[k] != On(i, Started(other, true))
  }

  ghost predicate NoStart(events: seq<Event>, n: nat, i: nat) {
    forall k, other :: 0 <= k < n && RunsAt(events, k, i) ==> events[k] != On(i, Started(other, true))
  }

  /** The n-th event completes the live run's command with this exit code: its own block
      ends, or its own token comes. */
  ghost predicate Completes(events: seq<Event>, n: nat, i: nat, mode: Mode, exit: int) {
    && RunsAt(events, n, i)
    && match mode
       case Integrated => exists m, block :: 0 <= m < n && FirstStart(events, m, i, block) && events[n] == On(i, Ended(block, exit))
       case Sentinel => events[n] == On(i, Token(exit, true))
  }

  ghost predicate FirstCompletes(events: seq<Event>, n: nat, i: nat, mode: Mode, exit: int) {
    && Completes(events, n, i, mode, exit)
    && forall k, other :: 0 <= k < n ==> !Completes(events, k, i, mode, other)
  }

  /** What the past says of a job. */
  ghost predicate Traced(events: seq<Event>, n: nat, i: nat, job: Job) {
    && (job.mode.Integrated? ==>
          match job.bound
          case None => NoStart(events, n, i)
          case Some(block) => exists m :: 0 <= m < n && FirstStart(events, m, i, block))
    && (if job.completions == [] then forall k, exit :: 0 <= k < n ==> !Completes(events, k, i, job.mode, exit)
        else job.completions[0].exit.Some?
             && exists k :: 0 <= k < n && FirstCompletes(events, k, i, job.mode, job.completions[0].exit.value))
  }

  ghost predicate RunTraced(events: seq<Event>, n: nat, i: nat, stage: Stage) {
    && (JobOf(stage).Some? ==> Traced(events, n, i, JobOf(stage).value))
    && (!stage.Running? && !stage.Settled? ==> forall k :: 0 <= k < n ==> !RunsAt(events, k, i))
  }

  /** Nothing happens to a job while it does not run. */
  lemma StillTraced(events: seq<Event>, n: nat, i: nat, job: Job)
    requires Traced(events, n, i, job) && !RunsAt(events, n, i)
    ensures Traced(events, n + 1, i, job)
  {
    hide RunsAt, FirstStart;
    forall exit ensures !Completes(events, n, i, job.mode, exit) { }
  }

  lemma BlankTraced(events: seq<Event>, n: nat, i: nat, job: Job)
    requires Blank(job) && forall k :: 0 <= k < n ==> !RunsAt(events, k, i)
    ensures Traced(events, n, i, job)
  {
    hide RunsAt;
  }

  /** A second first start there is not. */
  lemma OneFirstStart(events: seq<Event>, m: nat, block: nat, m': nat, block': nat, i: nat)
    requires FirstStart(events, m, i, block) && FirstStart(events, m', i, block')
    ensures m == m' && block == block'
  {
    hide RunsAt;
  }

  /** A job is traced after an event of its own. */
  lemma StepTraced(events: seq<Event>, n: nat, i: nat, e: RunEvent, job: Job, job': Job)
    requires n < |events| && events[n] == On(i, e) && RunsAt(events, n, i)
    requires Traced(events, n, i, job) && Evolves(job, job', e)
    ensures Traced(events, n + 1, i, job')
  {
    hide RunsAt, Completes;
    if job.mode.Integrated? { BoundTraced(events, n, i, e, job, job'); }
    CompletionIs(events, n, i, e, job);
    if job.completions != [] {
      var k :| 0 <= k < n && FirstCompletes(events, k, i, job.mode, job.completions[0].exit.value);
      assert job'.completions[0] == job.completions[0];
    } else if CompletionOf(job, e).Some? {
      assert FirstCompletes(events, n, i, job.mode, CompletionOf(job, e).value);
    }
  }

  lemma BoundTraced(events: seq<Event>, n: nat, i: nat, e: RunEvent, job: Job, job': Job)
    requires n < |events| && events[n] == On(i, e) && RunsAt(events, n, i) && job.mode.Integrated?
    requires Traced(events, n, i, job) && Evolves(job, job', e)
    ensures match job'.bound
      case None => NoStart(events, n + 1, i)
      case Some(block) => exists m :: 0 <= m < n + 1 && FirstStart(events, m, i, block)
  {
    hide RunsAt, Completes, CompletionOf;
    if job.bound.None? && e.Started? && e.ours {
      assert FirstStart(events, n, i, e.block);
    } else if job.bound.Some? {
      var m :| 0 <= m < n && FirstStart(events, m, i, job.bound.value);
    }
  }

  /** The event completes the command exactly if it is a completion for the job. */
  lemma CompletionIs(events: seq<Event>, n: nat, i: nat, e: RunEvent, job: Job)
    requires n < |events| && events[n] == On(i, e) && RunsAt(events, n, i) && Traced(events, n, i, job)
    ensures forall exit :: Completes(events, n, i, job.mode, exit) <==> CompletionOf(job, e) == Some(exit)
  {
    hide RunsAt, FirstStart;
    forall exit ensures Completes(events, n, i, job.mode, exit) <==> CompletionOf(job, e) == Some(exit) {
      if job.mode.Integrated? && e.Ended? {
        if job.bound.Some? {
          var m :| 0 <= m < n && FirstStart(events, m, i, job.bound.value);
          if Completes(events, n, i, job.mode, exit) {
            var m', block :| 0 <= m' < n && FirstStart(events, m', i, block) && events[n] == On(i, Ended(block, exit));
            OneFirstStart(events, m, job.bound.value, m', block, i);
          }
        } else {
          NoFirstStart(events, n, i);
        }
      }
    }
  }

  lemma NoFirstStart(events: seq<Event>, n: nat, i: nat)
    requires NoStart(events, n, i)
    ensures forall m, block :: 0 <= m < n ==> !FirstStart(events, m, i, block)
  {
    hide RunsAt;
  }

  // ------------------------------------------------------------ every run

  ghost predicate AllTraced(events: seq<Event>, n: nat)
    requires n <= |events|
  {
    forall i :: 0 <= i < |Before(events, n).runs| ==> RunTraced(events, n, i, Before(events, n).runs[i].stage)
  }

  lemma EventTraced(events: seq<Event>, n: nat, i: nat)
    requires n < |events| && AllTraced(events, n) && i < |Before(events, n).runs|
    ensures i < |Before(events, n + 1).runs| && RunTraced(events, n + 1, i, Before(events, n + 1).runs[i].stage)
  {
    hide Step, Traced, Before, RunsAt;
    var s, t := Before(events, n), Before(events, n + 1);
    BeforeNext(events, n);
    StepRuns(s, events[n]);
    RunsIs(events, n, i);
    assert RunTraced(events, n, i, s.runs[i].stage);
    StageMoves(s, events[n], i);
    var before, after := s.runs[i].stage, t.runs[i].stage;
    if before.Running? && events[n].On? && events[n].run == i {
      StepTraced(events, n, i, events[n].e, before.job, JobOf(after).value);
    } else if before.Running? {
      OtherTraced(events, n, i, before.job);
    } else if after == before {
      if JobOf(before).Some? { StillTraced(events, n, i, JobOf(before).value); }
    } else if JobOf(after).Some? {
      BlankTraced(events, n + 1, i, JobOf(after).value);
    }
  }

  lemma RunsIs(events: seq<Event>, n: nat, i: nat)
    requires n < |events| && i < |Before(events, n).runs|
    ensures RunsAt(events, n, i) <==> Before(events, n).runs[i].stage.Running?
  {
  }

  /** An event that is not the run's own leaves its job as it was. */
  lemma OtherTraced(events: seq<Event>, n: nat, i: nat, job: Job)
    requires Traced(events, n, i, job) && n < |events| && !(events[n].On? && events[n].run == i)
    ensures Traced(events, n + 1, i, job)
  {
    hide RunsAt, FirstStart;
    forall exit ensures !Completes(events, n, i, job.mode, exit) { }
  }

  /** How the stage of a run that there is can change in one event. */
  lemma StageMoves(s: State, e: Event, i: nat)
    requires i < |s.runs|
    ensures var t := Step(s, e);
      && i < |t.runs|
      && var before, after := s.runs[i].stage, t.runs[i].stage;
         && (before.Running? && e.On? && e.run == i ==>
               (after.Running? || after.Settled?) && JobOf(after).Some? && Evolves(before.job, JobOf(after).value, e.e))
         && (before.Running? && !(e.On? && e.run == i) ==> JobOf(after) == Some(before.job) && (after.Running? || after.Settled?))
         && (!before.Running? && after != before && JobOf(after).Some? ==> Blank(JobOf(after).value) && !before.Settled?)
         && (before.Settled? ==> after == before)
  {
    hide Start, AbortSession, JobStep, PreflightStep, Accepting, ProbeAllowed, Licensed, Evolves, Blank, ModeOf, CarriedBy;
    match e
    case Call(o) =>
      StartStarts(s, o);
      assert Step(s, e).runs[i] == Step(s, e).runs[..|s.runs|][i];
    case Abort(reason, expected) => AbortMoves(s, reason, expected, i);
    case On(j, e) =>
      if j < |s.runs| {
        RunTouches(s, j, e);
        if j == i && s.runs[i].stage.Running? { JobEvolves(s, i, e); }
        if j == i && s.runs[i].stage.Settled? { SettledKeeps(s, i, e); }
      }
    case _ =>
  }

  lemma SettledKeeps(s: State, i: nat, e: RunEvent)
    requires i < |s.runs| && s.runs[i].stage.Settled?
    ensures PreflightStep(s, i, e).runs[i].stage == s.runs[i].stage
  {
  }

  lemma AbortMoves(s: State, reason: AbortReason, expected: Option<nat>, i: nat)
    requires i < |s.runs|
    ensures var t := AbortSession(s, reason, expected);
      && i < |t.runs| && JobOf(t.runs[i].stage) == JobOf(s.runs[i].stage)
      && (s.runs[i].stage.Running? ==> t.runs[i].stage.Running? || t.runs[i].stage.Settled?)
      && (s.runs[i].stage.Settled? ==> t.runs[i].stage == s.runs[i].stage)
  {
  }

  lemma {:induction false} AlwaysTraced(events: seq<Event>, n: nat)
    requires n <= |events|
    ensures AllTraced(events, n)
  {
    hide RunTraced, Step;
    if n == 0 {
      NoRunsYet(events);
    } else {
      AlwaysTraced(events, n - 1);
      var s, t := Before(events, n - 1), Before(events, n);
      BeforeNext(events, n - 1);
      StepRuns(s, events[n - 1]);
      forall i | 0 <= i < |t.runs| ensures RunTraced(events, n, i, t.runs[i].stage) {
        if i < |s.runs| { EventTraced(events, n - 1, i); } else { NewTraced(events, n - 1); }
      }
    }
  }

  lemma NoRunsYet(events: seq<Event>)
    ensures AllTraced(events, 0)
  {
  }

  /** A run that has just been started. */
  lemma NewTraced(events: seq<Event>, n: nat)
    requires n < |events| && events[n].Call?
    ensures var i := |Before(events, n).runs|;
      i < |Before(events, n + 1).runs| && RunTraced(events, n + 1, i, Before(events, n + 1).runs[i].stage)
  {
    hide Step, Before, ModeOf;
    var s := Before(events, n);
    BeforeNext(events, n);
    CallStarts(s, events[n].o);
    StartStarts(s, events[n].o);
    forall k | 0 <= k < n + 1 ensures !RunsAt(events, k, |s.runs|) { FewerRuns(events, k, n); }
  }

  lemma {:induction false} FewerRuns(events: seq<Event>, k: nat, n: nat)
    requires k <= n <= |events|
    ensures |Before(events, k).runs| <= |Before(events, n).runs|
    decreases n - k
  {
    hide Step, Before;
    if k < n {
      BeforeNext(events, n - 1);
      StepRuns(Before(events, n - 1), events[n - 1]);
      FewerRuns(events, k, n - 1);
    }
  }

  /** A reported exit code is the terminal's own word for this very command. In integrated
      mode it is the exit of the block that was the first to start as the command's own,
      in sentinel mode that of the run's own token, and in both the first such completion. */
  lemma ExitIsTheCommands(events: seq<Event>, i: nat)
    requires var s := Execute(INITIAL, events);
      i < |s.runs| && s.runs[i].stage.Settled? && s.runs[i].stage.outcome.exit.Some?
    ensures var stage := Execute(INITIAL, events).runs[i].stage;
      && stage.last.Some?
      && exists n :: 0 <= n < |events|
           && FirstCompletes(events, n, i, stage.last.value.mode, stage.outcome.exit.value)
  {
    hide Execute, FirstCompletes, Completes, NoStart;
    BeforeEnds(events);
    AlwaysTraced(events, |events|);
    ExecSafety.FirstCompletion(events, i);
    assert RunTraced(events, |events|, i, Before(events, |events|).runs[i].stage);
  }

  // ------------------------------------------------------------ and every completion is reported

  /** What a live job makes of a completion: it settles on it, unless a user's SIGINT has
      not been confirmed yet, when it keeps the first one back. */
  ghost predicate Reports(job: Job, after: Stage, exit: int) {
    if job.cause == Some(User) && job.pending && !job.confirmed then
      && after.Running?
      && after.job.buffered ==
           (if job.buffered.Some? then job.buffered else Some(Outcome(Some(exit), Some(Interrupted), false)))
    else
      && after.Settled?
      && after.outcome == Outcome(Some(exit), if job.cause.Some? then Some(Interrupted) else None, false)
  }

  lemma CompletionReports(s: State, i: nat, e: RunEvent, exit: int)
    requires i < |s.runs| && s.runs[i].stage.Running? && CompletionOf(s.runs[i].stage.job, e) == Some(exit)
    ensures Reports(s.runs[i].stage.job, Step(s, On(i, e)).runs[i].stage, exit)
  {
    hide UserInterrupt, TuiInterrupt, SigintAnswered, KeyAnswered, LadderStep, BlockStarted, Refresh, Fire, Complete, Reports;
    CompleteReports(s, i, exit);
    if e.Token? {
      var renewed := if s.runs[i].remote.Some? && s.proof.Some? then Some(s.proof.value.(provenAt := s.now)) else s.proof;
      var job := s.runs[i].stage.job.(proved := true);
      CompleteReports(Update(s.(proof := renewed), i, job), i, exit);
      ProofIsNoReport(s.runs[i].stage.job, Complete(Update(s.(proof := renewed), i, job), i, exit).runs[i].stage, exit);
    }
  }

  lemma CompleteReports(s: State, i: nat, exit: int)
    requires i < |s.runs| && s.runs[i].stage.Running?
    ensures i < |Complete(s, i, exit).runs| && Reports(s.runs[i].stage.job, Complete(s, i, exit).runs[i].stage, exit)
  {
  }

  lemma ProofIsNoReport(job: Job, after: Stage, exit: int)
    requires Reports(job.(proved := true), after, exit)
    ensures Reports(job, after, exit)
  {
  }

  /** When a live run's command completes, in the sense of the events alone, the run
      settles on that exit code; a user's unconfirmed SIGINT only delays it. */
  lemma CompletionIsReported(events: seq<Event>, n: nat, i: nat, exit: int)
    requires RunsAt(events, n, i) && Completes(events, n, i, Before(events, n).runs[i].stage.job.mode, exit)
    ensures i < |Before(events, n + 1).runs|
    ensures Reports(Before(events, n).runs[i].stage.job, Before(events, n + 1).runs[i].stage, exit)
  {
    hide Step, Before, Traced, Reports, CompletionOf;
    AlwaysTraced(events, n);
    BeforeNext(events, n);
    var s := Before(events, n);
    assert RunTraced(events, n, i, s.runs[i].stage);
    OnlyOwnEvents(events, n, i, s.runs[i].stage.job.mode, exit);
    CompletionIs(events, n, i, events[n].e, s.runs[i].stage.job);
    CompletionReports(s, i, events[n].e, exit);
    StepRuns(s, events[n]);
  }

  lemma OnlyOwnEvents(events: seq<Event>, n: nat, i: nat, mode: Mode, exit: int)
    requires Completes(events, n, i, mode, exit)
    ensures events[n].On? && events[n].run == i
  {
    hide RunsAt, FirstStart;
  }

  /** A block that is not the command's own is never bound: the first one is counted, and
      the second ends the wait with nothing reported. */
  lemma ForeignStarts(s: State, i: nat, block: nat)
    requires i < |s.runs| && s.runs[i].stage.Running?
    requires s.runs[i].stage.job.mode.Integrated? && s.runs[i].stage.job.bound.None?
    ensures var job := s.runs[i].stage.job; var after := Step(s, On(i, Started(block, false))).runs[i].stage;
      if job.foreign == 0 then after == Running(job.(foreign := 1))
      else after.Settled? && after.outcome == Outcome(None, Some(NotObserved), false)
  {
    hide UserInterrupt, TuiInterrupt, SigintAnswered, KeyAnswered, LadderStep, Complete, Refresh, Fire;
  }
}
