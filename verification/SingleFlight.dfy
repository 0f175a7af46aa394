/** WindowsTerminalState of src-tauri/src/windows_terminal.rs: any number of concurrent
    prepare_with callers around one cached attempt, as steps between their awaits. */
module SingleFlight {
  import opened Basics

  /** What a preparation reports: ready, or one of the ways it was not. */
  datatype Outcome = Ready | NotReady(detail: nat)

  /** A shared attempt does nothing until somebody awaits it. */
  datatype Progress = Unstarted | Running | Done(outcome: Outcome)

  datatype Attempt = Attempt(integration: bool, progress: Progress)

  /** Where a caller is: about to take the lock, awaiting an attempt to return its
      result or to try again after it, dropped, or finished. */
  datatype Stage =
    | Entering
    | Awaiting(attempt: nat, again: bool)
    | Dropped
    | Returned(attempt: nat, outcome: Outcome)

  datatype Caller = Caller(integration: bool, retry: bool, stage: Stage)

  /** Every attempt ever made, the one in the cache, and every caller. */
  datatype State = State(attempts: seq<Attempt>, cache: Option<nat>, callers: seq<Caller>)

  const INITIAL := State([], None, [])

  /** What the locked section decides for a caller. */
  datatype Decision = WaitAndRetry | Share | Launch

  function Decide(cached: Option<Attempt>, integration: bool, retry: bool): Decision {
    if cached.None? then Launch
    else
      var a := cached.value;
      if a.integration != integration && !a.progress.Done? then WaitAndRetry
      else
        var failed := a.progress.Done? && !a.progress.outcome.Ready?;
        if a.integration == integration && !(retry && failed) then Share else Launch
  }

  function Cached(s: State): Option<Attempt> {
    if s.cache.Some? && s.cache.value < |s.attempts| then Some(s.attempts[s.cache.value]) else None
  }

  function At(s: State, i: nat, stage: Stage): State
    requires i < |s.callers|
  {
    s.(callers := s.callers[i := s.callers[i].(stage := stage)])
  }

  function Enter(s: State, i: nat): State
    requires i < |s.callers|
  {
    var c := s.callers[i];
    match Decide(Cached(s), c.integration, c.retry)
    case WaitAndRetry => At(s, i, Awaiting(s.cache.value, true))
    case Share => At(s, i, Awaiting(s.cache.value, false))
    case Launch =>
      var n := |s.attempts|;
      At(s.(attempts := s.attempts + [Attempt(c.integration, Unstarted)], cache := Some(n)), i, Awaiting(n, false))
  }

  datatype Event =
    | Call(integration: bool, retry: bool)
    | Lock(caller: nat)
    | Poll(caller: nat)
    | Finish(attempt: nat, outcome: Outcome)
    | Wake(caller: nat)
    | Drop(caller: nat)

  function Step(s: State, e: Event): State {
    match e
    case Call(integration, retry) => s.(callers := s.callers + [Caller(integration, retry, Entering)])
    case Lock(i) => if i < |s.callers| && s.callers[i].stage.Entering? then Enter(s, i) else s
    case Poll(i) =>
      if i < |s.callers| && s.callers[i].stage.Awaiting? && s.callers[i].stage.attempt < |s.attempts|
         && s.attempts[s.callers[i].stage.attempt].progress.Unstarted? then
        var a := s.callers[i].stage.attempt;
        s.(attempts := s.attempts[a := s.attempts[a].(progress := Running)])
      else s
    case Finish(a, outcome) =>
      if a < |s.attempts| && s.attempts[a].progress.Running? then
        s.(attempts := s.attempts[a := s.attempts[a].(progress := Done(outcome))])
      else s
    case Wake(i) =>
      if i < |s.callers| && s.callers[i].stage.Awaiting? && s.callers[i].stage.attempt < |s.attempts|
         && s.attempts[s.callers[i].stage.attempt].progress.Done? then
        var stage := s.callers[i].stage;
        At(s, i, if stage.again then Entering else Returned(stage.attempt, s.attempts[stage.attempt].progress.outcome))
      else s
    case Drop(i) => if i < |s.callers| && !s.callers[i].stage.Returned? then At(s, i, Dropped) else s
  }

  function Run(s: State, events: seq<Event>): State
    decreases |events|
  {
    if events == [] then s else Run(Step(s, events[0]), events[1..])
  }

  /** What a caller that takes the lock does. With nothing cached, or a finished attempt that
      is of the other kind or failed for a caller that wants another try, it launches a new
      one; behind an unfinished attempt of the other kind it waits to try again; every
      other caller shares the attempt that there is. */
  lemma LockDecides(s: State, i: nat)
    requires i < |s.callers| && s.callers[i].stage.Entering?
    requires s.cache == (if s.attempts == [] then None else Some(|s.attempts| - 1))
    ensures var t, c, n := Step(s, Lock(i)), s.callers[i], |s.attempts|;
      && (if n == 0
             || (s.attempts[n - 1].progress.Done?
                 && (s.attempts[n - 1].integration != c.integration || (c.retry && s.attempts[n - 1].progress.outcome != Ready)))
          then t.attempts == s.attempts + [Attempt(c.integration, Unstarted)] && t.callers[i].stage == Awaiting(n, false)
          else t.attempts == s.attempts
               && t.callers[i].stage == Awaiting(n - 1, s.attempts[n - 1].integration != c.integration))
  {
  }

  // ------------------------------------------------------------ the invariant

  predicate StageOk(s: State, c: Caller) {
    match c.stage
    case Awaiting(a, again) => a < |s.attempts| && (!again ==> s.attempts[a].integration == c.integration)
    case Returned(a, outcome) =>
      a < |s.attempts| && s.attempts[a].integration == c.integration && s.attempts[a].progress == Done(outcome)
    case _ => true
  }

  /** The cache holds the last attempt; all before it are done; an attempt follows one of
      the same flag only when that one failed. */
  ghost predicate Inv(s: State) {
    && s.cache == (if s.attempts == [] then None else Some(|s.attempts| - 1))
    && (forall k :: 0 <= k < |s.attempts| - 1 ==> s.attempts[k].progress.Done?)
    && (forall k :: 0 <= k < |s.attempts| - 1 && s.attempts[k].integration == s.attempts[k + 1].integration ==>
          s.attempts[k].progress.Done? && !s.attempts[k].progress.outcome.Ready?)
    && (forall i :: 0 <= i < |s.callers| ==> StageOk(s, s.callers[i]))
  }

  /** An attempt only ever goes forward. */
  ghost predicate Grows(s: State, t: State) {
    && |s.attempts| <= |t.attempts|
    && forall k :: 0 <= k < |s.attempts| ==>
         && t.attempts[k].integration == s.attempts[k].integration
         && (s.attempts[k].progress.Done? ==> t.attempts[k] == s.attempts[k])
  }

  lemma StageGrows(s: State, t: State, c: Caller)
    requires StageOk(s, c) && Grows(s, t)
    ensures StageOk(t, c)
  {
  }

  /** Changing the attempts or one caller keeps the invariant, as long as the attempts
      keep their order and the changed caller is in order. */
  lemma Kept(s: State, t: State)
    requires Inv(s) && Grows(s, t) && |t.callers| >= |s.callers|
    requires forall i :: 0 <= i < |t.callers| ==> (i < |s.callers| && t.callers[i] == s.callers[i]) || StageOk(t, t.callers[i])
    requires t.cache == (if t.attempts == [] then None else Some(|t.attempts| - 1))
    requires forall k :: 0 <= k < |t.attempts| - 1 ==> t.attempts[k].progress.Done?
    requires forall k :: 0 <= k < |t.attempts| - 1 && t.attempts[k].integration == t.attempts[k + 1].integration ==>
      !t.attempts[k].progress.outcome.Ready?
    ensures Inv(t)
  {
    forall i | 0 <= i < |t.callers| ensures StageOk(t, t.callers[i]) {
      if i < |s.callers| && t.callers[i] == s.callers[i] { StageGrows(s, t, s.callers[i]); }
    }
  }

  lemma EnterKeeps(s: State, i: nat)
    requires Inv(s) && i < |s.callers| && s.callers[i].stage.Entering?
    ensures Inv(Enter(s, i)) && Grows(s, Enter(s, i))
  {
    var c, t := s.callers[i], Enter(s, i);
    var n := |s.attempts|;
    if Decide(Cached(s), c.integration, c.retry).Launch? {
      assert forall k :: 0 <= k < n ==> t.attempts[k] == s.attempts[k];
      assert t.attempts[n] == Attempt(c.integration, Unstarted);
      assert n > 0 ==> Cached(s) == Some(s.attempts[n - 1]) && s.attempts[n - 1].progress.Done?;
    }
    Kept(s, t);
  }

  lemma StepKeeps(s: State, e: Event)
    requires Inv(s)
    ensures Inv(Step(s, e)) && Grows(s, Step(s, e))
  {
    hide StageOk;
    var t := Step(s, e);
    match e
    case Lock(i) => if i < |s.callers| && s.callers[i].stage.Entering? { EnterKeeps(s, i); }
    case Wake(i) => WakeKeeps(s, i);
    case Drop(i) => DropKeeps(s, i);
    case Call(integration, retry) => CallKeeps(s, integration, retry);
    case _ => Kept(s, t);
  }

  lemma CallKeeps(s: State, integration: bool, retry: bool)
    requires Inv(s)
    ensures Inv(Step(s, Call(integration, retry)))
  {
    Kept(s, Step(s, Call(integration, retry)));
  }

  lemma WakeKeeps(s: State, i: nat)
    requires Inv(s)
    ensures Inv(Step(s, Wake(i)))
  {
    if i < |s.callers| { assert StageOk(s, s.callers[i]); }
    Kept(s, Step(s, Wake(i)));
  }

  lemma DropKeeps(s: State, i: nat)
    requires Inv(s)
    ensures Inv(Step(s, Drop(i)))
  {
    Kept(s, Step(s, Drop(i)));
  }

  lemma {:induction false} RunKeeps(s: State, events: seq<Event>)
    requires Inv(s)
    ensures Inv(Run(s, events))
    decreases |events|
  {
    hide Inv, Step;
    if events != [] {
      StepKeeps(s, events[0]);
      RunKeeps(Step(s, events[0]), events[1..]);
    }
  }

  predicate SameFlag(a: Attempt, b: Attempt) { a.integration == b.integration }

  predicate IsReady(a: Attempt) { a.progress == Done(Ready) }

  /** With any number of concurrent and dropped callers: at most one preparation is ever
      unfinished, every caller that returns has a result computed for its own flag, and a
      ready result for a flag is not computed again until the other flag has been. */
  lemma OnePreparation(events: seq<Event>)
    ensures var s := Run(INITIAL, events);
      && (forall i :: 0 <= i < |s.attempts| - 1 ==> s.attempts[i].progress.Done?)
      && (forall i :: 0 <= i < |s.callers| && s.callers[i].stage.Returned? ==>
            var a := s.callers[i].stage.attempt;
            && a < |s.attempts| && s.attempts[a].integration == s.callers[i].integration
            && s.attempts[a].progress == Done(s.callers[i].stage.outcome))
      && (forall i, j :: 0 <= i < j < |s.attempts| && SameFlag(s.attempts[i], s.attempts[j]) && IsReady(s.attempts[i]) ==>
            exists k :: i < k < j && !SameFlag(s.attempts[i], s.attempts[k]))
  {
    hide Run;
    RunKeeps(INITIAL, events);
    var s := Run(INITIAL, events);
    assert forall i :: 0 <= i < |s.callers| ==> StageOk(s, s.callers[i]);
    forall i, j | 0 <= i < j < |s.attempts| && SameFlag(s.attempts[i], s.attempts[j]) && IsReady(s.attempts[i])
      ensures exists k :: i < k < j && !SameFlag(s.attempts[i], s.attempts[k])
    {
      assert !SameFlag(s.attempts[i], s.attempts[i + 1]);
      assert i + 1 < j;
    }
  }

  /** A finished attempt stays as it is, so whoever shares it later gets the same result. */
  lemma {:induction false} ResultsStay(s: State, events: seq<Event>, a: nat)
    requires Inv(s) && a < |s.attempts| && s.attempts[a].progress.Done?
    ensures a < |Run(s, events).attempts| && Run(s, events).attempts[a] == s.attempts[a]
    decreases |events|
  {
    hide Inv, Step;
    if events != [] {
      StepKeeps(s, events[0]);
      ResultsStay(Step(s, events[0]), events[1..], a);
    }
  }

  // ------------------------------------------------------------ the locked section

  /** The cache behind its lock. */
  class Cache {
    var attempt: Option<nat>
    var attempts: seq<Attempt>

    ghost predicate Valid()
      reads this
    {
      attempt.Some? ==> attempt.value < |attempts|
    }

    constructor ()
      ensures Valid() && attempt.None? && attempts == []
    {
      attempt, attempts := None, [];
    }

    /** One pass of prepare_with under the lock: which attempt to await, and whether to
        come back afterwards. */
    method Locked(integration: bool, retry: bool) returns (pending: nat, again: bool)
      requires Valid()
      modifies this
      ensures Valid()
      ensures forall callers, i :: 0 <= i < |callers| && callers[i] == Caller(integration, retry, Entering) ==>
        Enter(State(old(attempts), old(attempt), callers), i)
        == At(State(attempts, attempt, callers), i, Awaiting(pending, again))
    {
      if attempt.Some? {
        var cached := attempts[attempt.value];
        if cached.integration != integration && !cached.progress.Done? { return attempt.value, true; }
        var failed := cached.progress.Done? && !cached.progress.outcome.Ready?;
        if cached.integration == integration && !(retry && failed) { return attempt.value, false; }
      }
      attempts := attempts + [Attempt(integration, Unstarted)];
      attempt := Some(|attempts| - 1);
      return |attempts| - 1, false;
    }
  }
}
