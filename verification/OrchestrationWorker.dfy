/** One iteration of an orchestration worker: claim, heartbeat thread, record or release.

    The main thread, the heartbeat thread and stop requests interleave at queue calls and at
    operations on the shared events; queue calls may fail at any time. */
module OrchestrationWorker {
  import opened Wrappers

  /** How the handler ended; `Escaped` is an exception the iteration does not catch. */
  datatype Outcome = Produced | NoResult | Cancelled | Raised | Escaped

  datatype ReleaseReason = Shutdown | HandlerCancelled

  datatype Ending =
    | Idle
    | ClaimRaised
    | FirstBeatLost
    | BeatLost
    | CancelledAfterLoss   // the branch for a cancelled handler whose lease was lost
    | FinalBeatLost
    | Submitted
    | RecordLost
    | Released(reason: ReleaseReason)
    | ReleaseLost
    | Propagated

  datatype Main =
    | Start
    | Claiming
    | FirstBeat
    | Handling
    | Joining(outcome: Outcome)
    | Deciding(outcome: Outcome)
    | FinalBeat
    | Recording
    | Releasing(reason: ReleaseReason)
    | Done(ending: Ending)

  datatype Thread = NotStarted | Waiting | Calling | ErrorStored | Exited

  /** Completed queue calls concerning the claim, in the order they completed. */
  datatype Call = BeatOk | BeatFailed | RecordCall(ok: bool) | ReleaseCall(ok: bool)

  datatype State = State(main: Main, thread: Thread, stopRequested: bool, beatStop: bool,
                         leaseLost: bool, errors: nat, calls: seq<Call>)

  datatype Action =
    | RequestStop
    | Begin
    | ClaimReturns(claimed: Option<bool>)   // None: the queue call raised; Some(false): nothing to do
    | FirstBeatReturns(ok: bool)
    | HandlerEnds(outcome: Outcome)
    | ThreadWakes
    | ThreadSeesStop
    | ThreadBeatReturns(ok: bool)
    | ThreadSetsLeaseLost
    | JoinReturns
    | Decide
    | FinalBeatReturns(ok: bool)
    | RecordReturns(ok: bool)
    | ReleaseReturns(ok: bool)

  const INITIAL := State(Start, NotStarted, false, false, false, 0, [])

  function Beat(ok: bool): Call {
    if ok then BeatOk else BeatFailed
  }

  function DecideStep(s: State, o: Outcome): State {
    if o.Escaped? then s.(main := Done(Propagated))
    else if s.errors > 0 then s.(main := Done(BeatLost))
    else if s.stopRequested then s.(main := Releasing(Shutdown))
    else if o.Cancelled? then
      if s.leaseLost then s.(main := Done(CancelledAfterLoss)) else s.(main := Releasing(HandlerCancelled))
    else s.(main := FinalBeat)
  }

  /** One step of either thread or of the environment; a disabled action changes nothing. */
  function Next(s: State, a: Action): State {
    match a
    case RequestStop => s.(stopRequested := true)
    case Begin =>
      if s.main.Start? then s.(main := if s.stopRequested then Done(Idle) else Claiming) else s
    case ClaimReturns(claimed) =>
      if s.main.Claiming? then
        s.(main := if claimed.None? then Done(ClaimRaised) else if claimed.value then FirstBeat else Done(Idle))
      else s
    case FirstBeatReturns(ok) =>
      if s.main.FirstBeat? then
        s.(main := if ok then Handling else Done(FirstBeatLost),
           thread := if ok then Waiting else s.thread,
           calls := s.calls + [Beat(ok)])
      else s
    case HandlerEnds(outcome) =>
      if s.main.Handling? then s.(main := Joining(outcome), beatStop := true) else s
    case ThreadWakes =>
      if s.thread.Waiting? && !s.beatStop then s.(thread := Calling) else s
    case ThreadSeesStop =>
      if s.thread.Waiting? && s.beatStop then s.(thread := Exited) else s
    case ThreadBeatReturns(ok) =>
      if s.thread.Calling? then
        s.(thread := if ok then Waiting else ErrorStored,
           errors := if ok then s.errors else s.errors + 1,
           calls := s.calls + [Beat(ok)])
      else s
    case ThreadSetsLeaseLost =>
      if s.thread.ErrorStored? then s.(thread := Exited, leaseLost := true) else s
    case JoinReturns =>
      if s.main.Joining? && s.thread.Exited? then s.(main := Deciding(s.main.outcome)) else s
    case Decide =>
      if s.main.Deciding? then DecideStep(s, s.main.outcome) else s
    case FinalBeatReturns(ok) =>
      if s.main.FinalBeat? then
        s.(main := if ok then Recording else Done(FinalBeatLost), calls := s.calls + [Beat(ok)])
      else s
    case RecordReturns(ok) =>
      if s.main.Recording? then
        s.(main := Done(if ok then Submitted else RecordLost), calls := s.calls + [RecordCall(ok)])
      else s
    case ReleaseReturns(ok) =>
      if s.main.Releasing? then
        s.(main := Done(if ok then Released(s.main.reason) else ReleaseLost), calls := s.calls + [ReleaseCall(ok)])
      else s
  }

  function Run(actions: seq<Action>): State {
    if actions == [] then INITIAL
    else Next(Run(actions[..|actions| - 1]), actions[|actions| - 1])
  }

  // ----- what every interleaving keeps ----------------------------------------------------

  predicate IsBeat(c: Call) {
    c.BeatOk? || c.BeatFailed?
  }

  predicate AllBeats(calls: seq<Call>) {
    calls == [] || (IsBeat(calls[|calls| - 1]) && AllBeats(calls[..|calls| - 1]))
  }

  predicate AllLive(calls: seq<Call>) {
    calls == [] || (calls[|calls| - 1] == BeatOk && AllLive(calls[..|calls| - 1]))
  }

  lemma {:induction false} LiveMeans(calls: seq<Call>)
    requires AllLive(calls)
    ensures AllBeats(calls) && forall i :: 0 <= i < |calls| ==> calls[i] == BeatOk
  {
    if calls != [] {
      LiveMeans(calls[..|calls| - 1]);
    }
  }

  lemma {:induction false} BeatsMean(calls: seq<Call>)
    requires AllBeats(calls)
    ensures forall i :: 0 <= i < |calls| ==> IsBeat(calls[i])
  {
    if calls != [] {
      BeatsMean(calls[..|calls| - 1]);
    }
  }

  /** The heartbeat thread stores an error, then sets the event, then is gone. */
  predicate ThreadAgrees(s: State) {
    && (s.thread.NotStarted? || s.thread.Waiting? || s.thread.Calling? ==> s.errors == 0 && !s.leaseLost)
    && (s.thread.ErrorStored? ==> s.errors > 0 && !s.leaseLost)
    && (s.thread.Exited? ==> (s.leaseLost <==> s.errors > 0))
    && (s.main.Start? || s.main.Claiming? || s.main.FirstBeat? ==> s.thread.NotStarted?)
    && (s.main.Handling? || s.main.Joining? ==> !s.thread.NotStarted?)
    && (s.main.Deciding? || s.main.FinalBeat? || s.main.Recording? || s.main.Releasing? ==> s.thread.Exited?)
    && (s.main.Done? ==> s.thread.NotStarted? || s.thread.Exited?)
  }

  /** Beats that succeeded, then one call `c`. */
  predicate EndsIn(calls: seq<Call>, c: Call) {
    calls != [] && AllLive(calls[..|calls| - 1]) && calls[|calls| - 1] == c
  }

  predicate EndingFits(ending: Ending, calls: seq<Call>) {
    match ending
    case Submitted | RecordLost => |calls| >= 2 && EndsIn(calls, RecordCall(ending.Submitted?))
    case Released(_) | ReleaseLost => EndsIn(calls, ReleaseCall(ending.Released?))
    case CancelledAfterLoss => false
    case _ => AllBeats(calls)
  }

  /** What the calls made so far say about where the main thread is. */
  predicate CallsFit(main: Main, errors: nat, calls: seq<Call>) {
    match main
    case Done(ending) => EndingFits(ending, calls)
    case FinalBeat | Releasing(_) => AllLive(calls) && errors == 0
    case Recording => AllLive(calls) && calls != [] && errors == 0
    case _ => if errors == 0 then AllLive(calls) else AllBeats(calls)
  }

  predicate CallsAgree(s: State) {
    CallsFit(s.main, s.errors, s.calls)
  }

  predicate Invariant(s: State) {
    ThreadAgrees(s) && CallsAgree(s)
  }

  lemma StepKeepsThread(s: State, a: Action)
    requires ThreadAgrees(s)
    ensures ThreadAgrees(Next(s, a))
  {
  }

  lemma Appended(calls: seq<Call>, c: Call)
    ensures (calls + [c])[..|calls|] == calls && (calls + [c])[|calls|] == c
    ensures AllLive(calls + [c]) <==> AllLive(calls) && c == BeatOk
    ensures AllBeats(calls + [c]) <==> AllBeats(calls) && IsBeat(c)
    ensures AllLive(calls) ==> AllBeats(calls)
    ensures AllLive(calls) ==> EndsIn(calls + [c], c)
  {
    var more := calls + [c];
    assert more[..|calls|] == calls;
    if AllLive(calls) {
      LiveMeans(calls);
    }
  }

  lemma FirstBeatKeepsCalls(s: State, ok: bool)
    requires Invariant(s)
    ensures CallsAgree(Next(s, FirstBeatReturns(ok)))
  {
    Appended(s.calls, Beat(ok));
  }

  lemma ThreadBeatKeepsCalls(s: State, ok: bool)
    requires Invariant(s)
    ensures CallsAgree(Next(s, ThreadBeatReturns(ok)))
  {
    Appended(s.calls, Beat(ok));
    assert s.thread.Calling? ==> s.main.Handling? || s.main.Joining?;
  }

  lemma FinalBeatKeepsCalls(s: State, ok: bool)
    requires Invariant(s)
    ensures CallsAgree(Next(s, FinalBeatReturns(ok)))
  {
    if s.main.FinalBeat? {
      FinalBeatFits(s.calls, ok);
    }
  }

  lemma FinalBeatFits(calls: seq<Call>, ok: bool)
    requires AllLive(calls)
    ensures CallsFit(if ok then Recording else Done(FinalBeatLost), 0, calls + [Beat(ok)])
  {
    Appended(calls, Beat(ok));
  }

  lemma RecordKeepsCalls(s: State, ok: bool)
    requires Invariant(s)
    ensures CallsAgree(Next(s, RecordReturns(ok)))
  {
    if s.main.Recording? {
      RecordedFits(s.calls, ok);
    }
  }

  lemma RecordedFits(calls: seq<Call>, ok: bool)
    requires AllLive(calls) && calls != []
    ensures EndingFits(if ok then Submitted else RecordLost, calls + [RecordCall(ok)])
  {
    Appended(calls, RecordCall(ok));
    assert |calls + [RecordCall(ok)]| >= 2;
  }

  lemma ReleaseKeepsCalls(s: State, ok: bool)
    requires Invariant(s)
    ensures CallsAgree(Next(s, ReleaseReturns(ok)))
  {
    Appended(s.calls, ReleaseCall(ok));
  }

  lemma DecideKeepsCalls(s: State)
    requires Invariant(s)
    ensures CallsAgree(Next(s, Decide))
  {
    Appended(s.calls, BeatOk);
  }

  predicate MakesCallOrDecides(a: Action) {
    a.FirstBeatReturns? || a.ThreadBeatReturns? || a.FinalBeatReturns? || a.RecordReturns? || a.ReleaseReturns? || a.Decide?
  }

  lemma QuietKeepsCalls(s: State, a: Action)
    requires Invariant(s) && !MakesCallOrDecides(a)
    ensures CallsAgree(Next(s, a))
  {
    Appended(s.calls, BeatOk);
  }

  lemma StepKeepsInvariant(s: State, a: Action)
    requires Invariant(s)
    ensures Invariant(Next(s, a))
  {
    StepKeepsThread(s, a);
    match a
    case FirstBeatReturns(ok) => FirstBeatKeepsCalls(s, ok);
    case ThreadBeatReturns(ok) => ThreadBeatKeepsCalls(s, ok);
    case FinalBeatReturns(ok) => FinalBeatKeepsCalls(s, ok);
    case RecordReturns(ok) => RecordKeepsCalls(s, ok);
    case ReleaseReturns(ok) => ReleaseKeepsCalls(s, ok);
    case Decide => DecideKeepsCalls(s);
    case _ => QuietKeepsCalls(s, a);
  }

  lemma {:induction false} RunKeepsInvariant(actions: seq<Action>)
    ensures Invariant(Run(actions))
  {
    if actions != [] {
      RunKeepsInvariant(actions[..|actions| - 1]);
      StepKeepsInvariant(Run(actions[..|actions| - 1]), actions[|actions| - 1]);
    }
  }

  function Submissions(calls: seq<Call>): nat {
    if calls == [] then 0
    else Submissions(calls[..|calls| - 1]) + if IsBeat(calls[|calls| - 1]) then 0 else 1
  }

  lemma {:induction false} BeatsSubmitNothing(calls: seq<Call>)
    requires AllBeats(calls)
    ensures Submissions(calls) == 0
  {
    if calls != [] {
      BeatsSubmitNothing(calls[..|calls| - 1]);
    }
  }

  // A claim is answered by at most one call, a result or a release.
  lemma AtMostOneSubmission(actions: seq<Action>)
    ensures Submissions(Run(actions).calls) <= 1
  {
    RunKeepsInvariant(actions);
    CallsAreLiveThenOne(Run(actions));
    var calls := Run(actions).calls;
    if AllBeats(calls) {
      BeatsSubmitNothing(calls);
    } else {
      BeatsSubmitNothing(calls[..|calls| - 1]);
    }
  }

  // Either only heartbeats were sent, or heartbeats that all succeeded and then one answer.
  lemma CallsAreLiveThenOne(s: State)
    requires CallsAgree(s)
    ensures AllBeats(s.calls) || (s.calls != [] && AllLive(s.calls[..|s.calls| - 1]) && AllBeats(s.calls[..|s.calls| - 1])
              && !IsBeat(s.calls[|s.calls| - 1]) && s.main.Done? && (s.calls[|s.calls| - 1].RecordCall? ==> |s.calls| >= 2))
  {
    if AllLive(s.calls) {
      LiveMeans(s.calls);
    } else if s.calls != [] && AllLive(s.calls[..|s.calls| - 1]) {
      LiveMeans(s.calls[..|s.calls| - 1]);
    }
  }

  lemma RecordComesLast(calls: seq<Call>, i: nat)
    requires i < |calls| && calls[i].RecordCall?
    requires AllBeats(calls) || (AllLive(calls[..|calls| - 1]) && (calls[|calls| - 1].RecordCall? ==> |calls| >= 2))
    ensures i > 0 && i == |calls| - 1 && forall j :: 0 <= j < i ==> calls[j] == BeatOk
  {
    if AllBeats(calls) {
      BeatsMean(calls);
    } else {
      LiveMeans(calls[..|calls| - 1]);
      assert forall j :: 0 <= j < |calls| - 1 ==> calls[..|calls| - 1][j] == calls[j];
    }
  }

  // A result is recorded only on a lease that no heartbeat lost, right after one that succeeded.
  lemma RecordsOnlyOnLiveLease(actions: seq<Action>, i: nat)
    requires i < |Run(actions).calls| && Run(actions).calls[i].RecordCall?
    ensures i > 0 && forall j :: 0 <= j < i ==> Run(actions).calls[j] == BeatOk
    ensures i == |Run(actions).calls| - 1
  {
    RunKeepsInvariant(actions);
    CallsAreLiveThenOne(Run(actions));
    RecordComesLast(Run(actions).calls, i);
  }

  lemma AnswerIn(calls: seq<Call>, c: Call)
    requires !IsBeat(c)
    ensures AllBeats(calls) ==> c !in calls
    ensures calls != [] && AllLive(calls[..|calls| - 1]) ==> (c in calls <==> calls[|calls| - 1] == c)
  {
    if AllBeats(calls) {
      BeatsMean(calls);
    }
    if calls != [] && AllLive(calls[..|calls| - 1]) {
      LiveMeans(calls[..|calls| - 1]);
      assert calls == calls[..|calls| - 1] + [calls[|calls| - 1]];
    }
  }

  // What the iteration reports is what the queue was told.
  lemma EndingTellsTheCalls(actions: seq<Action>)
    requires Run(actions).main.Done?
    ensures Run(actions).main.ending.Submitted? <==> RecordCall(true) in Run(actions).calls
    ensures Run(actions).main.ending.Released? <==> ReleaseCall(true) in Run(actions).calls
    ensures Run(actions).main.ending.Idle? ==> Submissions(Run(actions).calls) == 0
  {
    RunKeepsInvariant(actions);
    FittingEnding(Run(actions).main.ending, Run(actions).calls);
  }

  lemma FittingEnding(ending: Ending, calls: seq<Call>)
    requires EndingFits(ending, calls)
    ensures ending.Submitted? <==> RecordCall(true) in calls
    ensures ending.Released? <==> ReleaseCall(true) in calls
    ensures ending.Idle? ==> Submissions(calls) == 0
  {
    AnswerIn(calls, RecordCall(true));
    AnswerIn(calls, ReleaseCall(true));
    if ending.Idle? {
      BeatsSubmitNothing(calls);
    }
  }

  // Once the heartbeat thread has been joined, the event and the error list say the same, so the
  // branch for a cancelled handler with a lost lease is never taken.
  lemma LeaseLostIffErrorAfterJoin(actions: seq<Action>)
    ensures Run(actions).main.Deciding? ==> (Run(actions).leaseLost <==> Run(actions).errors > 0)
    ensures Run(actions).main != Done(CancelledAfterLoss)
  {
    RunKeepsInvariant(actions);
  }

  // While the heartbeat thread lives the two can differ: the event is set after the error is stored.
  lemma LeaseLostLagsBehindError()
    ensures
      var s := Run([Begin, ClaimReturns(Some(true)), FirstBeatReturns(true), ThreadWakes, ThreadBeatReturns(false)]);
      s.errors > 0 && !s.leaseLost
  {
    RunOfFive(Begin, ClaimReturns(Some(true)), FirstBeatReturns(true), ThreadWakes, ThreadBeatReturns(false));
  }

  lemma RunOfFive(a: Action, b: Action, c: Action, d: Action, e: Action)
    ensures Run([a, b, c, d, e]) == Next(Next(Next(Next(Next(INITIAL, a), b), c), d), e)
  {
    assert [a, b, c, d, e][..4] == [a, b, c, d] && [a, b, c, d][..3] == [a, b, c];
    assert [a, b, c][..2] == [a, b] && [a, b][..1] == [a] && [a][..0] == [];
    assert Run([a]) == Next(INITIAL, a);
    assert Run([a, b]) == Next(Run([a]), b);
    assert Run([a, b, c]) == Next(Run([a, b]), c);
    assert Run([a, b, c, d]) == Next(Run([a, b, c]), d);
  }

  // ----- keeping the lease alive ---------------------------------------------------------------

  /** The pause between heartbeats, from the worker's setting and the task's lease. */
  function HeartbeatInterval(configured: real, leaseSeconds: Option<real>): real {
    if leaseSeconds.Some? && leaseSeconds.value > 0.0 then
      var third := leaseSeconds.value / 3.0;
      var floor := if third > 0.01 then third else 0.01;
      if configured < floor then configured else floor
    else configured
  }

  // The pause fits three times into the lease exactly when the worker is configured that often
  // or the lease is not absurdly short.
  lemma IntervalWithinThird(configured: real, lease: real)
    requires configured >= 0.01 && lease > 0.0
    ensures HeartbeatInterval(configured, Some(lease)) <= lease / 3.0 <==> configured <= lease / 3.0 || lease >= 0.03
    ensures HeartbeatInterval(configured, Some(lease)) >= 0.01
  {
  }

  /** A successful heartbeat call. */
  datatype Renewal = Renewal(start: real, end: real)

  /** A state with the present time, the times since which the thread waits or calls and the main
      thread beats, and the renewals so far. */
  datatype Clocked = Clocked(s: State, now: real, waiting: real, calling: real, beating: real, renewals: seq<Renewal>)

  datatype Timed = Timed(action: Action, time: real)

  predicate Beating(main: Main) {
    main.FirstBeat? || main.FinalBeat?
  }

  /** The main thread has work to do that takes no time. */
  predicate Urgent(s: State) {
    s.main.Deciding? || (s.main.Joining? && s.thread.Exited?) || (s.thread.Waiting? && s.beatStop)
  }

  /** Time may pass until `t`: calls are bounded, a wait ends with its pause or with the stop event,
      and everything else the worker does is immediate. */
  predicate MayPass(c: Clocked, t: real, interval: real, callTime: real) {
    && c.now <= t && (Urgent(c.s) ==> t == c.now)
    && (c.s.thread.Waiting? ==> t <= c.waiting + interval)
    && (c.s.thread.Calling? ==> t <= c.calling + callTime)
    && (Beating(c.s.main) ==> t <= c.beating + callTime)
  }

  predicate Renews(s: State, a: Action) {
    || (a == FirstBeatReturns(true) && s.main.FirstBeat?)
    || (a == ThreadBeatReturns(true) && s.thread.Calling?)
    || (a == FinalBeatReturns(true) && s.main.FinalBeat?)
  }

  function Elapse(c: Clocked, a: Action, t: real): Clocked {
    var s := Next(c.s, a);
    Clocked(s, t,
            if s.thread.Waiting? && !c.s.thread.Waiting? then t else c.waiting,
            if s.thread.Calling? && !c.s.thread.Calling? then t else c.calling,
            if Beating(s.main) && !Beating(c.s.main) then t else c.beating,
            if Renews(c.s, a) then c.renewals + [Renewal(if a.ThreadBeatReturns? then c.calling else c.beating, t)]
            else c.renewals)
  }

  function RunClocked(steps: seq<Timed>): Clocked {
    if steps == [] then Clocked(INITIAL, 0.0, 0.0, 0.0, 0.0, [])
    else
      var last := steps[|steps| - 1];
      Elapse(RunClocked(steps[..|steps| - 1]), last.action, last.time)
  }

  /** Every step comes while time may pass until it. */
  predicate Timely(steps: seq<Timed>, interval: real, callTime: real) {
    steps == [] ||
    (Timely(steps[..|steps| - 1], interval, callTime)
     && MayPass(RunClocked(steps[..|steps| - 1]), steps[|steps| - 1].time, interval, callTime))
  }

  /** Calls of bounded length, each started within a pause of the end of the one before it. */
  predicate Schedule(rs: seq<Renewal>, interval: real, callTime: real) {
    && (forall i :: 0 <= i < |rs| ==> rs[i].end <= rs[i].start + callTime && rs[i].start <= rs[i].end)
    && (forall i :: 0 <= i < |rs| - 1 ==> rs[i + 1].start <= rs[i].end + interval)
  }

  /** The next renewal may start at `t`. */
  predicate Due(rs: seq<Renewal>, t: real, interval: real) {
    rs != [] && t <= rs[|rs| - 1].end + interval
  }

  lemma ScheduleStep(rs: seq<Renewal>, r: Renewal, interval: real, callTime: real)
    requires Schedule(rs, interval, callTime) && r.start <= r.end <= r.start + callTime
    requires rs == [] || Due(rs, r.start, interval)
    ensures Schedule(rs + [r], interval, callTime)
  {
  }

  /** The stop event is set when the handler has ended, and a thread without error exits on it. */
  predicate StopAgrees(s: State) {
    && (s.main.Start? || s.main.Claiming? || s.main.FirstBeat? || s.main.Handling? ==> !s.beatStop)
    && (s.thread.Exited? && s.errors == 0 ==> s.beatStop)
  }

  /** What keeps the renewals on schedule. */
  predicate OnTime(c: Clocked, interval: real) {
    && (c.s.main.Start? || c.s.main.Claiming? || c.s.main.FirstBeat? ==> c.renewals == [])
    && (c.s.thread.Waiting? ==> c.renewals != [] && c.waiting == c.renewals[|c.renewals| - 1].end)
    && (c.s.thread.Calling? ==> Due(c.renewals, c.calling, interval) && c.calling <= c.now)
    && (c.s.thread.Exited? && c.s.errors == 0 && (c.s.main.Joining? || c.s.main.Deciding?) ==> Due(c.renewals, c.now, interval))
    && (c.s.main.FinalBeat? ==> Due(c.renewals, c.beating, interval))
    && (Beating(c.s.main) ==> c.beating <= c.now)
  }

  predicate ClockedInvariant(c: Clocked, interval: real, callTime: real) {
    Invariant(c.s) && StopAgrees(c.s) && OnTime(c, interval) && Schedule(c.renewals, interval, callTime)
  }

  lemma StopStays(s: State, a: Action)
    requires ThreadAgrees(s) && StopAgrees(s)
    ensures StopAgrees(Next(s, a))
  {
  }

  lemma RenewalOnSchedule(c: Clocked, a: Action, t: real, interval: real, callTime: real)
    requires ClockedInvariant(c, interval, callTime) && MayPass(c, t, interval, callTime)
    ensures Schedule(Elapse(c, a, t).renewals, interval, callTime)
  {
    if Renews(c.s, a) {
      var r := Renewal(if a.ThreadBeatReturns? then c.calling else c.beating, t);
      ScheduleStep(c.renewals, r, interval, callTime);
    }
  }

  lemma ThreadOnTime(c: Clocked, a: Action, t: real, interval: real, callTime: real)
    requires interval >= 0.0 && ClockedInvariant(c, interval, callTime) && MayPass(c, t, interval, callTime)
    ensures
      var d := Elapse(c, a, t);
      && (d.s.thread.Waiting? ==> d.renewals != [] && d.waiting == d.renewals[|d.renewals| - 1].end)
      && (d.s.thread.Calling? ==> Due(d.renewals, d.calling, interval) && d.calling <= d.now)
  {
  }

  lemma MainOnTime(c: Clocked, a: Action, t: real, interval: real, callTime: real)
    requires interval >= 0.0 && ClockedInvariant(c, interval, callTime) && MayPass(c, t, interval, callTime)
    ensures
      var d := Elapse(c, a, t);
      && (d.s.main.Start? || d.s.main.Claiming? || d.s.main.FirstBeat? ==> d.renewals == [])
      && (d.s.thread.Exited? && d.s.errors == 0 && (d.s.main.Joining? || d.s.main.Deciding?) ==> Due(d.renewals, d.now, interval))
      && (d.s.main.FinalBeat? ==> Due(d.renewals, d.beating, interval))
      && (Beating(d.s.main) ==> d.beating <= d.now)
  {
  }

  lemma {:induction false} TimelyRunsStayOnTime(steps: seq<Timed>, interval: real, callTime: real)
    requires interval >= 0.0 && Timely(steps, interval, callTime)
    ensures ClockedInvariant(RunClocked(steps), interval, callTime)
  {
    if steps != [] {
      var before, last := steps[..|steps| - 1], steps[|steps| - 1];
      TimelyRunsStayOnTime(before, interval, callTime);
      var c := RunClocked(before);
      StepKeepsInvariant(c.s, last.action);
      StopStays(c.s, last.action);
      RenewalOnSchedule(c, last.action, last.time, interval, callTime);
      ThreadOnTime(c, last.action, last.time, interval, callTime);
      MainOnTime(c, last.action, last.time, interval, callTime);
    }
  }

  // In every timely run, from the first heartbeat through those of the thread to the final one: each
  // renewal starts within a third of the lease plus the call time of the one before it, and takes effect
  // before that one expires, if a call takes less than a third of the lease.
  lemma LeaseNeverLapses(steps: seq<Timed>, configured: real, lease: real, callTime: real, i: nat, effect: real, next: real)
    requires configured >= 0.01 && lease >= 0.03 && callTime < lease / 3.0
    requires Timely(steps, HeartbeatInterval(configured, Some(lease)), callTime)
    requires
      var rs := RunClocked(steps).renewals;
      i + 1 < |rs| && rs[i].start <= effect <= rs[i].end && rs[i + 1].start <= next <= rs[i + 1].end
    ensures RunClocked(steps).renewals[i + 1].start <= RunClocked(steps).renewals[i].start + lease / 3.0 + callTime
    ensures next < effect + lease
  {
    IntervalWithinThird(configured, lease);
    TimelyRunsStayOnTime(steps, HeartbeatInterval(configured, Some(lease)), callTime);
  }
}
