/** The Job closure of src/lib/ptyExec.ts in its own form: an object whose fields the
    terminal's events, the user's gesture and the timers update in place. Every method is
    proved to do what the step system of ExecModel says. */
module ExecJob {
  import opened Basics
  import opened ExecModel

  /** The session with one run as given. */
  function Picture(s: State, i: nat, settled: Option<Outcome>, job: Job): State
    requires i < |s.runs|
  {
    s.At(i, if settled.Some? then Settled(settled.value, Some(job)) else Running(job))
      .(job := if settled.Some? then None else Some(i))
  }

  /** Updating the run of a picture paints it over. */
  lemma Repainted(s: State, i: nat, job: Job)
    requires i < |s.runs|
    ensures forall job' {:trigger Update(Picture(s, i, None, job), i, job')} ::
      Update(Picture(s, i, None, job), i, job') == Picture(s, i, None, job')
    ensures var p := Picture(s, i, None, job);
      && |p.runs| == |s.runs| && p.runs[i] == s.runs[i].(stage := Running(job))
      && p.now == s.now && p.w == s.w && p.proof == s.proof
    ensures forall proof {:trigger s.(proof := proof)} ::
      Picture(s.(proof := proof), i, None, job) == Picture(s, i, None, job).(proof := proof)
  {
    forall job' ensures Update(Picture(s, i, None, job), i, job') == Picture(s, i, None, job') {
      assert Update(Picture(s, i, None, job), i, job').runs == Picture(s, i, None, job').runs;
    }
  }

  lemma ClassifySame(job: Job, job': Job, w: World, now: int)
    requires job.ladder == job'.ladder
    ensures ClassifyStall(job, w, now) == ClassifyStall(job', w, now)
  {
  }

  class LiveJob {
    /** Which run this is, and the rest of the module's state. */
    const run: nat
    const mode: Mode
    var session: State
    var settled: Option<Outcome>

    var boundBlock: Option<nat>
    var foreignBlocks: nat
    var interruptedBy: Option<Cause>
    var userInterruptPending: bool
    var writeConfirmed: bool
    var pendingCompletion: Option<Outcome>
    var ladder: Option<Ladder>
    var completionProved: bool
    var stall: Option<Stall>
    var pausedMs: int
    var lastTickAt: int
    var bindAt: Option<int>
    var deliveryAt: Option<int>
    var graceAt: Option<int>
    var deadlineAt: Option<int>
    var refreshAt: int
    const capAt: int
    ghost var gestureAt: Option<int>
    ghost var completions: seq<Outcome>

    ghost function Value(): Job
      reads this
    {
      Job(mode, boundBlock, foreignBlocks, interruptedBy, userInterruptPending, writeConfirmed, pendingCompletion, ladder,
          completionProved, stall, pausedMs, lastTickAt, bindAt, deliveryAt, graceAt, deadlineAt, refreshAt, capAt,
          gestureAt, completions)
    }

    predicate Valid()
      reads this
    {
      run < |session.runs|
    }

    /** The session as the step system sees it. */
    ghost function View(): State
      requires Valid()
      reads this
    {
      Picture(session, run, settled, Value())
    }

    constructor (s: State, i: nat, mode: Mode)
      requires i < |s.runs|
      ensures Valid() && run == i && settled.None?
      ensures View() == s.At(i, Running(NewJob(s.runs[i], mode, s.now))).(job := Some(i))
    {
      var r := s.runs[i];
      run, this.mode, session, settled := i, mode, s, None;
      boundBlock, foreignBlocks, interruptedBy, userInterruptPending, writeConfirmed := None, 0, None, false, false;
      pendingCompletion, ladder, completionProved, stall := None, None, false, None;
      pausedMs, lastTickAt := 0, r.startedAt;
      bindAt := if mode.Integrated? then Some(s.now + BLOCK_BIND_MS) else None;
      deliveryAt, graceAt, deadlineAt := None, None, Some(s.now + r.Remaining(s.now));
      refreshAt := s.now + CARD_REFRESH_MS;
      capAt := s.now + Max(0, r.DeadlineAt() + FRONTEND_WATCHDOG_GRACE_MS - s.now);
      gestureAt, completions := None, [];
    }

    /** job.finish: only the first call settles the run. */
    method Finish(outcome: Outcome)
      requires Valid() && (session.job == Some(run) || settled.None?)
      modifies this`settled, this`session
      ensures Valid() && settled.Some? && (old(settled).Some? ==> settled == old(settled))
      ensures View() == ExecModel.Finish(old(View()), run, outcome)
    {
      if settled.Some? { return; }
      settled := Some(outcome);
      if session.runs[run].remote.Some? && mode.Sentinel? && !completionProved { session := session.(proof := None); }
    }

    method PtyWrite(e: Entry)
      requires Valid()
      modifies this`session
      ensures Valid() && View() == old(View()).Write(e)
    {
      session := session.Write(e);
    }

    method MarkInterrupted()
      modifies this`userInterruptPending, this`interruptedBy, this`gestureAt
      ensures Value() == old(Value()).(pending := true, cause := Some(User), gestureAt := Some(session.now))
    {
      userInterruptPending, interruptedBy, gestureAt := true, Some(User), Some(session.now);
    }

    /** job.interrupt("user") */
    method InterruptByUser(thrown: bool) returns (accepted: bool)
      requires Valid() && settled.None?
      modifies this
      ensures Valid() && accepted && View() == UserInterrupt(old(View()), run, thrown)
    {
      hide ExecModel.Finish, Picture, Update;
      Repainted(session, run, Value());
      if userInterruptPending || ladder.Some? || graceAt.Some? { return true; }
      MarkInterrupted();
      if thrown {
        Finish(Failed(InterruptFailed));
        return true;
      }
      deliveryAt := Some(session.now + USER_INTERRUPT_DELIVERY_TIMEOUT_MS);
      PtyWrite(Key(run, User));
      return true;
    }

    /** job.interrupt("tui") */
    method InterruptByScreen() returns (accepted: bool)
      requires Valid() && settled.None?
      modifies this
      ensures Valid() && View() == TuiInterrupt(old(View()), run)
    {
      hide Picture, Update;
      Repainted(session, run, Value());
      if ladder.Some? || userInterruptPending || graceAt.Some? { return false; }
      ladder, interruptedBy := Some(Ladder(1, None)), Some(Tui);
      PtyWrite(Key(run, Tui));
      return true;
    }

    method ArmInterruptedGrace()
      requires Valid() && settled.None?
      modifies this`graceAt
      ensures Valid() && Value() == ArmGrace(old(Value()), session.now)
    {
      if graceAt.None? { graceAt := Some(session.now + USER_INTERRUPT_GRACE_MS); }
    }

    /** The write of SIGINT was accepted or refused by the bridge. */
    method SigintAnswered(delivered: bool)
      requires Valid() && settled.None?
      modifies this
      ensures Valid() && View() == ExecModel.SigintAnswered(old(View()), run, delivered)
    {
      hide ExecModel.Finish, Picture, Update;
      Repainted(session, run, Value());
      if !userInterruptPending || writeConfirmed { return; }
      if !delivered {
        Finish(Failed(InterruptFailed));
        return;
      }
      ConfirmSigint();
    }

    /** The SIGINT was written: report what has been kept back, or start the grace. */
    method ConfirmSigint()
      requires Valid() && settled.None? && userInterruptPending && !writeConfirmed
      modifies this
      ensures Valid() && View() == ExecModel.SigintAnswered(old(View()), run, true)
    {
      hide ExecModel.Finish, Picture, Update;
      Repainted(session, run, Value());
      writeConfirmed, deliveryAt := true, None;
      if pendingCompletion.Some? {
        var completion := pendingCompletion.value;
        pendingCompletion := None;
        Finish(completion);
        return;
      }
      ArmInterruptedGrace();
    }

    /** One rung of the interrupt ladder, after its pause. */
    method ClimbLadder()
      requires Valid() && settled.None?
      modifies this
      ensures Valid() && View() == LadderStep(old(View()), run)
    {
      hide ExecModel.Finish, Picture, Update;
      Repainted(session, run, Value());
      if ladder.None? || ladder.value.stepAt.None? || session.now < ladder.value.stepAt.value { return; }
      if !(session.w.entry.Some? && session.w.alternate) {
        ladder := None;
        ArmInterruptedGrace();
        return;
      }
      if ladder.value.keys < LADDER_LENGTH {
        ladder := Some(Ladder(ladder.value.keys + 1, None));
        PtyWrite(Key(run, Tui));
        return;
      }
      Finish(Failed(InterruptFailed));
    }

    /** settleAuthoritativeCompletion, from a block end or a completion token. */
    method SettleAuthoritativeCompletion(exit: int)
      requires Valid() && settled.None?
      modifies this
      ensures Valid() && View() == Complete(old(View()), run, exit)
    {
      hide ExecModel.Finish, Picture, Update;
      Repainted(session, run, Value());
      var outcome := Outcome(Some(exit), if interruptedBy.Some? then Some(Interrupted) else None, false);
      completions := completions + [outcome];
      if interruptedBy == Some(User) && userInterruptPending && !writeConfirmed {
        if pendingCompletion.None? { pendingCompletion := Some(outcome); }
        return;
      }
      Finish(outcome);
    }

    method OnBlockStart(block: nat, ours: bool)
      requires Valid() && settled.None?
      modifies this
      ensures Valid() && View() == BlockStarted(old(View()), run, block, ours)
    {
      hide ExecModel.Finish, Picture, Update;
      Repainted(session, run, Value());
      if mode.Sentinel? || boundBlock.Some? { return; }
      if ours {
        boundBlock := Some(block);
        return;
      }
      if foreignBlocks + 1 >= 2 {
        Finish(Failed(NotObserved));
      } else {
        foreignBlocks := foreignBlocks + 1;
      }
    }

    method OnToken(exit: int, ours: bool)
      requires Valid() && settled.None?
      modifies this
      ensures Valid() && View() == TokenSeen(old(View()), run, exit, ours)
    {
      hide ExecModel.Finish, Complete, Picture, Update;
      Repainted(session, run, Value());
      if mode.Integrated? || !ours { return; }
      ghost var was, rest := Value(), session;
      completionProved := true;
      if session.runs[run].remote.Some? && session.proof.Some? {
        session := session.(proof := Some(session.proof.value.(provenAt := session.now)));
      }
      Repainted(session, run, was);
      assert Picture(session, run, None, was) == Picture(rest, run, None, was).(proof := session.proof);
      SettleAuthoritativeCompletion(exit);
    }

    /** classifyStall */
    method Classify() returns (seen: Option<Stall>)
      requires Valid()
      ensures seen == ClassifyStall(Value(), session.w, session.now)
    {
      var w := session.w;
      if (w.entry.Some? && w.alternate) || ladder.Some? { return Some(Hijacked); }
      if !w.Live() { return None; }
      if w.passwordRow { return Some(Password); }
      if session.now - w.dataAt < STALL_IDLE_MS { return None; }
      return Some(if w.confirmRow then Input else Idle);
    }

    /** The time since the last beat is the user's if it was spent at a password prompt. */
    method ChargePause()
      modifies this`pausedMs, this`lastTickAt
      ensures Value() == old(Value()).(
        paused := if old(stall) == Some(Password) then old(pausedMs) + (session.now - old(lastTickAt)) else old(pausedMs),
        lastTick := session.now)
    {
      if stall == Some(Password) { pausedMs := pausedMs + (session.now - lastTickAt); }
      lastTickAt := session.now;
    }

    method Reclassify()
      requires Valid()
      modifies this`pausedMs, this`lastTickAt, this`stall
      ensures Value() == old(Value()).(
        paused := if old(stall) == Some(Password) then old(pausedMs) + (session.now - old(lastTickAt)) else old(pausedMs),
        lastTick := session.now,
        stall := ClassifyStall(old(Value()), session.w, session.now))
    {
      hide ClassifyStall;
      ghost var was := Value();
      ChargePause();
      ghost var charged := Value();
      stall := Classify();
      ClassifySame(was, charged, session.w, session.now);
    }

    /** The card's refresh beat. */
    method OnRefresh()
      requires Valid() && settled.None?
      modifies this
      ensures Valid() && View() == Refresh(old(View()), run)
    {
      hide ClassifyStall, Picture, Update;
      Repainted(session, run, Value());
      if session.now < refreshAt { return; }
      ghost var was, due := Value(), session.now + CARD_REFRESH_MS;
      if session.w.Live() { Reclassify(); }
      ClassifySame(was, was.(refreshAt := due), session.w, session.now);
      refreshAt := session.now + CARD_REFRESH_MS;
    }

    method OnTimer(timer: Timer)
      requires Valid() && settled.None?
      modifies this
      ensures Valid() && View() == Fire(old(View()), run, timer)
    {
      hide ExecModel.Finish, Picture, Update;
      Repainted(session, run, Value());
      match timer
      case BindTimer =>
        if Due(bindAt, session.now) {
          if boundBlock.None? && interruptedBy.None? { Finish(Failed(NotObserved)); } else { bindAt := None; }
        }
      case DeliveryTimer =>
        if Due(deliveryAt, session.now) {
          if !writeConfirmed { Finish(Failed(InterruptFailed)); } else { deliveryAt := None; }
        }
      case GraceTimer =>
        if Due(graceAt, session.now) { Finish(Failed(Interrupted)); }
      case DeadlineTimer =>
        if Due(deadlineAt, session.now) { OnDeadline(); }
      case CapTimer =>
        if session.now >= capAt {
          match interruptedBy {
            case None => Finish(Failed(Timeout));
            case Some(User) => Finish(Failed(if writeConfirmed then Interrupted else InterruptFailed));
            case Some(Tui) => Finish(Failed(InterruptFailed));
          }
        }
    }

    /** The command deadline, which a password pause moves and an interrupt disarms. */
    method OnDeadline()
      requires Valid() && settled.None? && Due(deadlineAt, session.now)
      modifies this
      ensures Valid() && View() == Fire(old(View()), run, DeadlineTimer)
    {
      hide ExecModel.Finish, Picture, Update;
      Repainted(session, run, Value());
      if interruptedBy.Some? {
        deadlineAt := None;
        return;
      }
      var left := session.runs[run].o.timeout - (session.now - session.runs[run].startedAt - pausedMs);
      if left > 0 { deadlineAt := Some(session.now + left); } else { Finish(Failed(Timeout)); }
    }
  }
}
