/** One reserved test-data run worked on by any number of executors with expiring leases.

    A step is one committed database transaction, one heartbeat, or the death of an executor.
    Publishing a failure takes two steps, because the source reads the run without a lock before
    it decides and writes. */
module MainFlowExecution {
  import opened Wrappers

  const LEASE_SECONDS: nat := 300

  datatype Kind = Passed | Failed | Blocked | Interrupted

  /** How a run was brought to its terminal status. */
  datatype Way = ByExecution | ByRecovery | ByFailure

  type Executor = nat

  datatype Status = Running | Terminal(kind: Kind)

  datatype RunEvent = RecoveredEvent | BackgroundFailed | ClosureGenerated | DownstreamFailed

  datatype Commit = Commit(executor: Executor, way: Way, kind: Kind)

  /** The run's row, its event log, and the history of terminal commits. */
  datatype Row = Row(status: Status, owner: Option<Executor>, leaseExpires: nat,
                     attempts: nat, maxAttempts: nat, events: seq<RunEvent>, commits: seq<Commit>)

  datatype Stage =
    | Fresh
    | Executing
    | Recovering
    | Republishing
    | Publishing                                   // the run is terminal; downstream work remains
    | Failing
    | FailureRead(status: Status, owner: Option<Executor>)
    | Finished
    | Dead

  datatype State = State(row: Row, clock: nat, stages: map<Executor, Stage>)

  datatype Action =
    | Tick(seconds: nat)
    | Claim(e: Executor)
    | Heartbeat(e: Executor)
    | Complete(e: Executor, kind: Kind)
    | CompleteRecovery(e: Executor)
    | Republish(e: Executor)
    | PublishDownstream(e: Executor)
    | Raise(e: Executor)
    | ReadForFailure(e: Executor)
    | PublishFailure(e: Executor, closureOk: bool)
    | Die(e: Executor)

  function StageOf(s: State, e: Executor): Stage {
    if e in s.stages then s.stages[e] else Fresh
  }

  function To(s: State, e: Executor, stage: Stage): State {
    s.(stages := s.stages[e := stage])
  }

  predicate OwnsLive(row: Row, e: Executor, clock: nat) {
    row.status.Running? && row.owner == Some(e) && row.leaseExpires > clock
  }

  function TakeLease(row: Row, e: Executor, clock: nat): Row {
    row.(owner := Some(e), leaseExpires := clock + LEASE_SECONDS)
  }

  function Terminate(row: Row, e: Executor, way: Way, kind: Kind): Row {
    row.(status := Terminal(kind), owner := None, commits := row.commits + [Commit(e, way, kind)])
  }

  function ClaimStep(s: State, e: Executor): State {
    var row := s.row;
    if !row.status.Running? then To(s, e, Republishing)
    else if row.owner.Some? && row.leaseExpires > s.clock then To(s, e, Finished)
    else if row.owner.Some? || row.attempts >= row.maxAttempts then
      To(s, e, Recovering).(row := TakeLease(row, e, s.clock))
    else To(s, e, Executing).(row := TakeLease(row, e, s.clock).(attempts := row.attempts + 1))
  }

  /** The write half of failure publication, acting on what was read earlier. */
  function PublishFailureStep(s: State, e: Executor, read: Stage, closureOk: bool): State
    requires read.FailureRead?
  {
    var done := To(s, e, Finished);
    if read.status.Running? && read.owner != Some(e) then done
    else if !read.status.Running? then done.(row := s.row.(events := s.row.events + [DownstreamFailed]))
    else if !s.row.status.Running? || !closureOk then done
    else
      var failed := Terminate(s.row, e, ByFailure, Failed);
      done.(row := failed.(events := failed.events + [BackgroundFailed, ClosureGenerated]))
  }

  /** One step; an action that is not enabled changes nothing. */
  function Next(s: State, a: Action): State {
    match a
    case Tick(seconds) => s.(clock := s.clock + seconds)
    case Claim(e) => if StageOf(s, e).Fresh? then ClaimStep(s, e) else s
    case Heartbeat(e) =>
      if OwnsLive(s.row, e, s.clock) then s.(row := s.row.(leaseExpires := s.clock + LEASE_SECONDS)) else s
    case Complete(e, kind) =>
      if !StageOf(s, e).Executing? then s
      else if OwnsLive(s.row, e, s.clock) then To(s, e, Publishing).(row := Terminate(s.row, e, ByExecution, kind))
      else To(s, e, Failing)
    case CompleteRecovery(e) =>
      if !StageOf(s, e).Recovering? then s
      else if s.row.status.Running? then
        var row := Terminate(s.row, e, ByRecovery, Interrupted);
        To(s, e, Publishing).(row := row.(events := row.events + [RecoveredEvent]))
      else To(s, e, Failing)
    case Republish(e) => if StageOf(s, e).Republishing? then To(s, e, Publishing) else s
    case PublishDownstream(e) =>
      if StageOf(s, e).Publishing? then
        To(s, e, Finished).(row := s.row.(events := s.row.events + [ClosureGenerated]))
      else s
    case Raise(e) =>
      if StageOf(s, e).Executing? || StageOf(s, e).Recovering? || StageOf(s, e).Republishing?
         || StageOf(s, e).Publishing?
      then To(s, e, Failing) else s
    case ReadForFailure(e) =>
      if StageOf(s, e).Failing? then To(s, e, FailureRead(s.row.status, s.row.owner)) else s
    case PublishFailure(e, closureOk) =>
      if StageOf(s, e).FailureRead? then PublishFailureStep(s, e, StageOf(s, e), closureOk) else s
    case Die(e) => To(s, e, Dead)
  }

  function Start(maxAttempts: nat): State {
    State(Row(Running, None, 0, 0, maxAttempts, [], []), 0, map[])
  }

  function Run(s: State, actions: seq<Action>): State {
    if actions == [] then s
    else Next(Run(s, actions[..|actions| - 1]), actions[|actions| - 1])
  }

  // ----- invariants ----------------------------------------------------------------------

  /** The status is what the single terminal commit made it. */
  predicate CommittedOnce(row: Row) {
    && |row.commits| <= 1
    && (row.status.Running? <==> row.commits == [])
    && (row.status.Terminal? ==> row.commits[0].kind == row.status.kind && row.owner.None?)
  }

  /** Whoever works downstream does so for a run that is already terminal. */
  predicate PublishersLate(s: State) {
    forall e :: e in s.stages && WorksDownstream(s.stages[e]) ==> s.row.status.Terminal?
  }

  predicate WorksDownstream(stage: Stage) {
    stage.Publishing? || stage.Republishing? || (stage.FailureRead? && stage.status.Terminal?)
  }

  predicate Invariant(s: State) {
    && CommittedOnce(s.row) && PublishersLate(s)
    && s.row.leaseExpires <= s.clock + LEASE_SECONDS
  }

  lemma StepKeepsInvariant(s: State, a: Action)
    requires Invariant(s)
    ensures Invariant(Next(s, a))
  {
  }

  lemma {:induction false} RunKeepsInvariant(s: State, actions: seq<Action>)
    requires Invariant(s)
    ensures Invariant(Run(s, actions))
  {
    if actions != [] {
      RunKeepsInvariant(s, actions[..|actions| - 1]);
      StepKeepsInvariant(Run(s, actions[..|actions| - 1]), actions[|actions| - 1]);
    }
  }

  lemma {:induction false} RunSplit(s: State, first: seq<Action>, more: seq<Action>)
    ensures Run(s, first + more) == Run(Run(s, first), more)
  {
    if more == [] {
      assert first + more == first;
    } else {
      assert (first + more)[..|first + more| - 1] == first + more[..|more| - 1];
      RunSplit(s, first, more[..|more| - 1]);
    }
  }

  // ----- what holds over every run ------------------------------------------------------------

  lemma {:induction false} TerminalStays(s: State, more: seq<Action>)
    requires Invariant(s) && s.row.status.Terminal?
    ensures Run(s, more).row.status == s.row.status && Run(s, more).row.commits == s.row.commits
    ensures s.row.events <= Run(s, more).row.events
  {
    if more != [] {
      TerminalStays(s, more[..|more| - 1]);
      RunKeepsInvariant(s, more[..|more| - 1]);
    }
  }

  // A run reaches a terminal status by one commit of one executor; nothing that happens later,
  // failures included, changes it, and the event log only grows.
  lemma TerminalStatusIsFinal(maxAttempts: nat, actions: seq<Action>, more: seq<Action>)
    requires Run(Start(maxAttempts), actions).row.status.Terminal?
    ensures
      var s, s' := Run(Start(maxAttempts), actions), Run(Start(maxAttempts), actions + more);
      && s'.row.status == s.row.status
      && |s'.row.commits| == 1 && s'.row.commits == s.row.commits
      && s.row.commits[0].kind == s.row.status.kind
      && s.row.events <= s'.row.events
  {
    RunKeepsInvariant(Start(maxAttempts), actions);
    RunSplit(Start(maxAttempts), actions, more);
    TerminalStays(Run(Start(maxAttempts), actions), more);
  }

  // An executor's result is accepted only while it owns the run on a live lease.
  lemma OnlyTheOwnerCompletes(s: State, e: Executor, kind: Kind)
    requires Invariant(s) && Next(s, Complete(e, kind)).row != s.row
    ensures OwnsLive(s.row, e, s.clock)
    ensures Next(s, Complete(e, kind)).row.commits == [Commit(e, ByExecution, kind)]
  {
  }

  // Failing downstream of the commit only adds an event.
  lemma DownstreamFailureOnlyAppends(maxAttempts: nat, actions: seq<Action>, e: Executor, between: seq<Action>, closureOk: bool)
    requires StageOf(Run(Start(maxAttempts), actions), e).Publishing?
    requires
      var failing := actions + [Raise(e), ReadForFailure(e)];
      StageOf(Run(Start(maxAttempts), failing + between), e) == StageOf(Run(Start(maxAttempts), failing), e)
    ensures
      var failing := actions + [Raise(e), ReadForFailure(e)];
      var s := Run(Start(maxAttempts), failing + between);
      Next(s, PublishFailure(e, closureOk)).row == s.row.(events := s.row.events + [DownstreamFailed])
  {
    var s := Run(Start(maxAttempts), actions);
    RunKeepsInvariant(Start(maxAttempts), actions);
    assert s.row.status.Terminal?;
    RunSplit(Start(maxAttempts), actions, [Raise(e), ReadForFailure(e)]);
    TwoSteps(s, Raise(e), ReadForFailure(e));
  }

  lemma TwoSteps(s: State, a: Action, b: Action)
    ensures Run(s, [a, b]) == Next(Next(s, a), b)
  {
    assert [a, b][..1] == [a] && [a][..0] == [];
    assert Run(s, [a]) == Next(s, a);
  }

  // ----- failures of executors that lost the run ---------------------------------------------------

  // A failure read while another executor owned the run changes nothing, and in every case the
  // exact effect of publishing a failure is this.
  lemma FailureTakesEffectIff(s: State, e: Executor, closureOk: bool)
    requires StageOf(s, e).FailureRead?
    ensures
      var read, s' := StageOf(s, e), Next(s, PublishFailure(e, closureOk));
      && (s'.row.status != s.row.status ==> s'.row.status == Terminal(Failed))
      && (s'.row.commits != s.row.commits <==>
            read.status.Running? && read.owner == Some(e) && s.row.status.Running? && closureOk)
      && (read.status.Running? && read.owner != Some(e) ==> s'.row == s.row)
  {
    var row := s.row;
    assert |Terminate(row, e, ByFailure, Failed).commits| == |row.commits| + 1;
  }

  /** A failure overrides an executor that has taken the run over. */
  predicate Overrides(s: State, e: Executor, closureOk: bool) {
    var s' := Next(s, PublishFailure(e, closureOk));
    s.row.status.Running? && s.row.owner != Some(e) && s'.row.status.Terminal?
  }

  // The executor must have owned the run when it read, and lost it before it wrote.
  lemma OverridesIff(s: State, e: Executor, closureOk: bool)
    requires StageOf(s, e).FailureRead?
    ensures Overrides(s, e, closureOk) <==>
              && StageOf(s, e).status.Running? && StageOf(s, e).owner == Some(e)
              && s.row.status.Running? && s.row.owner != Some(e) && closureOk
  {
  }

  // Ownership passes on only after the lease has run out.
  lemma {:induction false} LeaseKeepsOwner(s: State, more: seq<Action>, e: Executor)
    requires Invariant(s) && s.row.status.Running? && s.row.owner == Some(e)
    requires Run(s, more).clock < s.row.leaseExpires
    ensures
      var s' := Run(s, more);
      s'.row.status.Running? ==> s'.row.owner == Some(e) && s'.row.leaseExpires >= s.row.leaseExpires
  {
    if more != [] {
      ClockAdvances(Run(s, more[..|more| - 1]), more[|more| - 1]);
      RunKeepsInvariant(s, more[..|more| - 1]);
      LeaseKeepsOwner(s, more[..|more| - 1], e);
    }
  }

  lemma ClockAdvances(s: State, a: Action)
    ensures s.clock <= Next(s, a).clock
  {
  }

  // So a failure published before the lease that was read has run out overrides nobody.
  lemma PromptFailureOverridesNobody(s: State, between: seq<Action>, e: Executor, closureOk: bool)
    requires Invariant(s) && StageOf(s, e).Failing?
    requires
      var read := Next(s, ReadForFailure(e));
      && StageOf(Run(read, between), e) == StageOf(read, e)
      && Run(read, between).clock < s.row.leaseExpires
    ensures !Overrides(Run(Next(s, ReadForFailure(e)), between), e, closureOk)
  {
    var read := Next(s, ReadForFailure(e));
    var late := Run(read, between);
    FailureTakesEffectIff(late, e, closureOk);
    if StageOf(read, e).status.Running? && StageOf(read, e).owner == Some(e) {
      LeaseKeepsOwner(read, between, e);
    }
  }

  // Once the lease has run out, any fresh executor can take the run over and be overridden.
  lemma ExpiredLeaseCanBeOverridden(s: State, e: Executor, f: Executor, wait: nat)
    requires StageOf(s, e).Failing? && s.row.status.Running? && s.row.owner == Some(e)
    requires f != e && StageOf(s, f).Fresh? && s.row.leaseExpires <= s.clock + wait
    ensures
      var read := Next(s, ReadForFailure(e));
      var late := Run(read, [Tick(wait), Claim(f)]);
      && StageOf(late, e) == StageOf(read, e) && late.clock == s.clock + wait
      && late.row.owner == Some(f) && Overrides(late, e, true)
  {
    TwoSteps(Next(s, ReadForFailure(e)), Tick(wait), Claim(f));
  }

  /** Something others do between the read and the write, by `deadline`, makes the failure of `e`
      override another executor. */
  ghost predicate MayOverride(s: State, e: Executor, deadline: nat) {
    exists between: seq<Action> :: OverridesAfter(s, e, between, deadline)
  }

  ghost predicate OverridesAfter(s: State, e: Executor, between: seq<Action>, deadline: nat) {
    var read := Next(s, ReadForFailure(e));
    var late := Run(read, between);
    StageOf(late, e) == StageOf(read, e) && late.clock <= deadline && Overrides(late, e, true)
  }

  // The exact condition, known at the read: the failure of an executor may override another one by
  // the time it is written exactly when it owned the running run and its lease ends by then.
  lemma MayOverrideIff(s: State, e: Executor, f: Executor, deadline: nat)
    requires Invariant(s) && StageOf(s, e).Failing? && f != e && StageOf(s, f).Fresh? && s.clock <= deadline
    ensures MayOverride(s, e, deadline) <==>
              s.row.status.Running? && s.row.owner == Some(e) && s.row.leaseExpires <= deadline
  {
    if MayOverride(s, e, deadline) {
      var between :| OverridesAfter(s, e, between, deadline);
      OverridesIff(Run(Next(s, ReadForFailure(e)), between), e, true);
      if s.row.leaseExpires > deadline {
        PromptFailureOverridesNobody(s, between, e, true);
      }
    }
    if s.row.status.Running? && s.row.owner == Some(e) && s.row.leaseExpires <= deadline {
      ExpiredLeaseCanBeOverridden(s, e, f, deadline - s.clock);
      assert OverridesAfter(s, e, [Tick(deadline - s.clock), Claim(f)], deadline);
    }
  }

  function RaceSteps(): seq<Action> {
    [Claim(1), Raise(1), ReadForFailure(1), Tick(LEASE_SECONDS), Claim(2)]
  }

  // Without that the source does let a failure override the new owner: executor 1 reads that it
  // owns the run, its lease runs out, executor 2 takes the run over, and executor 1's failure
  // still ends it.
  lemma LateFailureOverridesNewOwner()
    ensures
      var s := Run(Start(3), RaceSteps());
      && s.row.status.Running? && s.row.owner == Some(2) && StageOf(s, 2).Recovering?
      && Overrides(s, 1, true)
      && Next(s, PublishFailure(1, true)).row.status == Terminal(Failed)
  {
    var s0 := Start(3);
    RunSplit(s0, [Claim(1), Raise(1)], [ReadForFailure(1), Tick(LEASE_SECONDS)]);
    RunSplit(s0, [Claim(1), Raise(1), ReadForFailure(1), Tick(LEASE_SECONDS)], [Claim(2)]);
    assert [Claim(1), Raise(1)] + [ReadForFailure(1), Tick(LEASE_SECONDS)]
           == [Claim(1), Raise(1), ReadForFailure(1), Tick(LEASE_SECONDS)];
    assert [Claim(1), Raise(1), ReadForFailure(1), Tick(LEASE_SECONDS)] + [Claim(2)] == RaceSteps();
    TwoSteps(s0, Claim(1), Raise(1));
    TwoSteps(Run(s0, [Claim(1), Raise(1)]), ReadForFailure(1), Tick(LEASE_SECONDS));
    var s4 := Run(s0, [Claim(1), Raise(1), ReadForFailure(1), Tick(LEASE_SECONDS)]);
    assert [Claim(2)][..0] == [];
    assert Run(s4, [Claim(2)]) == Next(s4, Claim(2));
  }
}
