/** Approved commands: reserve, execute, record, recover, by any number of callers.

    Every database operation is one transaction on an autocommit connection and is one step here;
    so is every lock operation.  Callers may die between any two steps. */
module CommandExecution {
  import opened Wrappers

  // ----- what one execution amounts to -------------------------------------------

  datatype Status = Passed | Failed | TimedOut | LaunchFailed | Interrupted

  /** `boundReport` says that a coverage template names a validated report. */
  datatype Template = Template(digest: string, expectedExitCodes: set<int>, isCoverage: bool, boundReport: bool)

  /** The worktree as Git reports it. */
  datatype Snapshot = Snapshot(remote: string, content: string)

  /** How a process went: `streamsRead` is false when reading its output failed. */
  datatype Attempt =
    | NotLaunched
    | Launched(timedOut: bool, exitCode: int, leftoverProcesses: bool, streamsRead: bool)

  datatype Record = Record(status: Status, exitCode: Option<int>, coverageDigest: Option<string>, recovery: Option<string>)

  function ExecuteStatus(t: Template, a: Attempt): Status {
    if a.NotLaunched? || !a.streamsRead then LaunchFailed
    else if a.timedOut then TimedOut
    else if a.leftoverProcesses then Failed
    else if a.exitCode in t.expectedExitCodes then Passed
    else Failed
  }

  /** The record written after an execution; `report` is the digest of a readable report. */
  function Outcome(t: Template, a: Attempt, before: Snapshot, after: Snapshot, report: Option<string>): Record {
    var exitCode := if a.Launched? && !a.timedOut then Some(a.exitCode) else None;
    var status := if after != before then Failed else ExecuteStatus(t, a);
    if !t.isCoverage || status != Passed then Record(status, exitCode, None, None)
    else if t.boundReport && report.Some? then Record(Passed, exitCode, report, None)
    else Record(Failed, exitCode, None, None)
  }

  /** All that a `passed` record vouches for. */
  predicate Vouched(t: Template, a: Attempt, before: Snapshot, after: Snapshot, report: Option<string>) {
    && a.Launched? && a.streamsRead && !a.timedOut && !a.leftoverProcesses
    && a.exitCode in t.expectedExitCodes
    && after == before
    && (t.isCoverage ==> t.boundReport && report.Some?)
  }

  lemma PassedIffVouched(t: Template, a: Attempt, before: Snapshot, after: Snapshot, report: Option<string>)
    ensures Outcome(t, a, before, after, report).status == Passed <==> Vouched(t, a, before, after, report)
    ensures Outcome(t, a, before, after, report).coverageDigest.Some? <==>
              t.isCoverage && Vouched(t, a, before, after, report)
  {
  }

  // ----- callers and the store ---------------------------------------------------------

  type Id = string
  type Workspace = string
  type CallerId = nat

  /** What a command execution id is bound to. */
  datatype Identity = Identity(scope: string, templateDigest: string, content: string)

  /** `creator` is the caller whose reservation made the row. */
  datatype Reservation = Reservation(identity: Identity, creator: CallerId)

  datatype Stage =
    | Entered
    | HoldingLock
    | Inspected(before: Snapshot)
    | Reserved(before: Snapshot)
    | Running(before: Snapshot)
    | Ran(before: Snapshot, attempt: Attempt)
    | Returned(record: Record)
    | Stopped
  {
    predicate Critical() {
      HoldingLock? || Inspected? || Reserved? || Running? || Ran?
    }

    predicate OwnsReservation() {
      Reserved? || Running? || Ran?
    }
  }

  datatype Caller = Caller(id: Id, scope: string, workspace: Workspace, template: Template, stage: Stage)

  datatype Event =
    | Started(id: Id)
    | Recorded(id: Id, record: Record, template: Template, attempt: Attempt,
               before: Snapshot, after: Snapshot, report: Option<string>)
    | Recovered(id: Id, record: Record)

  datatype State = State(requests: map<Id, Reservation>, results: map<Id, Record>,
                         locks: map<Workspace, CallerId>, callers: map<CallerId, Caller>, history: seq<Event>)

  datatype Action =
    | Enter(c: CallerId, id: Id, scope: string, workspace: Workspace, template: Template)
    | Acquire(c: CallerId)
    | Inspect(c: CallerId, snapshot: Snapshot)
    | Reserve(c: CallerId, granted: bool)
    | Launch(c: CallerId)
    | Finish(c: CallerId, attempt: Attempt)
    | RecordResult(c: CallerId, after: Snapshot, report: Option<string>)
    | Die(c: CallerId)
    | Recover(id: Id, recovery: string, stale: bool)

  const INITIAL := State(map[], map[], map[], map[], [])

  function SetStage(callers: map<CallerId, Caller>, c: CallerId, stage: Stage): map<CallerId, Caller>
    requires c in callers
  {
    callers[c := callers[c].(stage := stage)]
  }

  function FreeLock(locks: map<Workspace, CallerId>, w: Workspace, c: CallerId): map<Workspace, CallerId> {
    if w in locks && locks[w] == c then locks - {w} else locks
  }

  function At(s: State, c: CallerId, stage: Stage): State
    requires c in s.callers
  {
    s.(callers := SetStage(s.callers, c, stage))
  }

  /** Ends a caller and gives back the lock it may hold. */
  function Leave(s: State, c: CallerId, stage: Stage): State
    requires c in s.callers
  {
    s.(callers := SetStage(s.callers, c, stage), locks := FreeLock(s.locks, s.callers[c].workspace, c))
  }

  function ReserveStep(s: State, c: CallerId, granted: bool): State
    requires c in s.callers && s.callers[c].stage.Inspected?
  {
    var caller := s.callers[c];
    var identity := Identity(caller.scope, caller.template.digest, caller.stage.before.content);
    if caller.id in s.requests then
      if s.requests[caller.id].identity != identity then Leave(s, c, Stopped)
      else if caller.id in s.results then Leave(s, c, Returned(s.results[caller.id]))
      else Leave(s, c, Stopped)
    else if !granted then Leave(s, c, Stopped)
    else At(s.(requests := s.requests[caller.id := Reservation(identity, c)]), c, Reserved(caller.stage.before))
  }

  function RecordStep(s: State, c: CallerId, after: Snapshot, report: Option<string>): State
    requires c in s.callers && s.callers[c].stage.Ran?
  {
    var caller := s.callers[c];
    var record := Outcome(caller.template, caller.stage.attempt, caller.stage.before, after, report);
    if caller.id in s.results then
      Leave(s, c, if s.results[caller.id] == record then Returned(record) else Stopped)
    else
      var event := Recorded(caller.id, record, caller.template, caller.stage.attempt, caller.stage.before, after, report);
      Leave(s.(results := s.results[caller.id := record], history := s.history + [event]), c, Returned(record))
  }

  /** One step; an action that is not enabled changes nothing. */
  function Next(s: State, a: Action): State {
    match a
    case Enter(c, id, scope, workspace, template) =>
      if c in s.callers then s
      else s.(callers := s.callers[c := Caller(id, scope, workspace, template, Entered)])
    case Acquire(c) =>
      if c in s.callers && s.callers[c].stage.Entered? && s.callers[c].workspace !in s.locks then
        At(s, c, HoldingLock).(locks := s.locks[s.callers[c].workspace := c])
      else s
    case Inspect(c, snapshot) =>
      if c in s.callers && s.callers[c].stage.HoldingLock? then At(s, c, Inspected(snapshot)) else s
    case Reserve(c, granted) =>
      if c in s.callers && s.callers[c].stage.Inspected? then ReserveStep(s, c, granted) else s
    case Launch(c) =>
      if c in s.callers && s.callers[c].stage.Reserved? then
        At(s, c, Running(s.callers[c].stage.before)).(history := s.history + [Started(s.callers[c].id)])
      else s
    case Finish(c, attempt) =>
      if c in s.callers && s.callers[c].stage.Running? then At(s, c, Ran(s.callers[c].stage.before, attempt)) else s
    case RecordResult(c, after, report) =>
      if c in s.callers && s.callers[c].stage.Ran? then RecordStep(s, c, after, report) else s
    case Die(c) =>
      if c in s.callers && !s.callers[c].stage.Returned? then Leave(s, c, Stopped) else s
    case Recover(id, recovery, stale) =>
      if id in s.requests && id !in s.results && stale then
        var record := Record(Interrupted, None, None, Some(recovery));
        s.(results := s.results[id := record], history := s.history + [Recovered(id, record)])
      else s
  }

  /** The state after a run: any interleaving of any callers, deaths and recoveries. */
  function Run(actions: seq<Action>): State {
    if actions == [] then INITIAL
    else Next(Run(actions[..|actions| - 1]), actions[|actions| - 1])
  }

  // ----- invariants ------------------------------------------------------------------------

  function Starts(history: seq<Event>, id: Id): nat {
    if history == [] then 0
    else Starts(history[..|history| - 1], id) + if history[|history| - 1] == Started(id) then 1 else 0
  }

  lemma StartsAppend(history: seq<Event>, e: Event, id: Id)
    ensures Starts(history + [e], id) == Starts(history, id) + if e == Started(id) then 1 else 0
  {
    assert (history + [e])[..|history|] == history;
  }

  /** A caller past its reservation is the one that made the row, and every row's maker is known. */
  predicate OwnersAgree(requests: map<Id, Reservation>, callers: map<CallerId, Caller>) {
    && (forall c :: c in callers && callers[c].stage.OwnsReservation() ==>
          callers[c].id in requests && requests[callers[c].id].creator == c)
    && (forall id :: id in requests ==>
          requests[id].creator in callers && callers[requests[id].creator].id == id)
  }

  /** An id without a row was never started; with one, at most once, and not while its maker
      is still about to launch. */
  ghost predicate StartedOnce(history: seq<Event>, requests: map<Id, Reservation>, callers: map<CallerId, Caller>) {
    forall id :: OnceFor(history, requests, callers, id)
  }

  predicate OnceFor(history: seq<Event>, requests: map<Id, Reservation>, callers: map<CallerId, Caller>, id: Id) {
    && Starts(history, id) <= 1
    && (id !in requests ==> Starts(history, id) == 0)
    && (id in requests && requests[id].creator in callers && callers[requests[id].creator].stage.Reserved? ==>
          Starts(history, id) == 0)
  }

  predicate LocksAgree(locks: map<Workspace, CallerId>, callers: map<CallerId, Caller>) {
    && (forall c :: c in callers && callers[c].stage.Critical() ==>
          callers[c].workspace in locks && locks[callers[c].workspace] == c)
    && (forall w :: w in locks ==>
          locks[w] in callers && callers[locks[w]].workspace == w && callers[locks[w]].stage.Critical())
  }

  predicate Explains(e: Event, id: Id, record: Record) {
    match e
    case Started(_) => false
    case Recovered(i, r) => i == id && r == record && r.status == Interrupted
    case Recorded(i, r, t, a, before, after, report) =>
      i == id && r == record && r == Outcome(t, a, before, after, report)
  }

  /** Every result belongs to a row and was put there by an event that accounts for it. */
  predicate ResultsExplained(s: State) {
    forall id :: id in s.results ==>
      id in s.requests && exists e :: e in s.history && Explains(e, id, s.results[id])
  }

  predicate RepliesAgree(results: map<Id, Record>, callers: map<CallerId, Caller>) {
    forall c :: c in callers && callers[c].stage.Returned? ==>
      callers[c].id in results && results[callers[c].id] == callers[c].stage.record
  }

  ghost predicate Invariant(s: State) {
    && OwnersAgree(s.requests, s.callers) && StartedOnce(s.history, s.requests, s.callers)
    && LocksAgree(s.locks, s.callers) && ResultsExplained(s) && RepliesAgree(s.results, s.callers)
  }

  lemma OwnersAt(requests: map<Id, Reservation>, callers: map<CallerId, Caller>, c: CallerId, stage: Stage)
    requires OwnersAgree(requests, callers) && c in callers
    requires stage.OwnsReservation() ==> callers[c].stage.OwnsReservation()
    ensures OwnersAgree(requests, SetStage(callers, c, stage))
  {
  }

  lemma OwnersReserve(requests: map<Id, Reservation>, callers: map<CallerId, Caller>, c: CallerId, identity: Identity, before: Snapshot)
    requires OwnersAgree(requests, callers) && c in callers && callers[c].id !in requests
    ensures OwnersAgree(requests[callers[c].id := Reservation(identity, c)], SetStage(callers, c, Reserved(before)))
  {
  }

  lemma OwnersAtReserve(s: State, c: CallerId, granted: bool)
    requires OwnersAgree(s.requests, s.callers)
    requires c in s.callers && s.callers[c].stage.Inspected?
    ensures var s' := ReserveStep(s, c, granted); OwnersAgree(s'.requests, s'.callers)
  {
    var caller := s.callers[c];
    var identity := Identity(caller.scope, caller.template.digest, caller.stage.before.content);
    if caller.id !in s.requests && granted {
      OwnersReserve(s.requests, s.callers, c, identity, caller.stage.before);
    } else {
      OwnersAt(s.requests, s.callers, c, ReserveStep(s, c, granted).callers[c].stage);
    }
  }

  lemma OwnersKept(s: State, a: Action)
    requires OwnersAgree(s.requests, s.callers)
    ensures OwnersAgree(Next(s, a).requests, Next(s, a).callers)
  {
    if a.Reserve? && a.c in s.callers && s.callers[a.c].stage.Inspected? {
      OwnersAtReserve(s, a.c, a.granted);
    } else if !a.Enter? && !a.Recover? && a.c in s.callers {
      OwnersAt(s.requests, s.callers, a.c, Next(s, a).callers[a.c].stage);
    }
  }

  lemma LocksAt(locks: map<Workspace, CallerId>, callers: map<CallerId, Caller>, c: CallerId, stage: Stage)
    requires LocksAgree(locks, callers) && c in callers
    ensures stage.Critical() && callers[c].stage.Critical() ==> LocksAgree(locks, SetStage(callers, c, stage))
    ensures !stage.Critical() ==>
              LocksAgree(FreeLock(locks, callers[c].workspace, c), SetStage(callers, c, stage))
    ensures stage.Critical() && callers[c].workspace !in locks ==>
              LocksAgree(locks[callers[c].workspace := c], SetStage(callers, c, stage))
  {
  }

  lemma LocksKept(s: State, a: Action)
    requires LocksAgree(s.locks, s.callers)
    ensures LocksAgree(Next(s, a).locks, Next(s, a).callers)
  {
    match a
    case Enter(_, _, _, _, _) =>
    case Recover(_, _, _) =>
    case Reserve(c, granted) =>
      if c in s.callers && s.callers[c].stage.Inspected? {
        LocksAt(s.locks, s.callers, c, ReserveStep(s, c, granted).callers[c].stage);
      }
    case RecordResult(c, after, report) =>
      if c in s.callers && s.callers[c].stage.Ran? {
        LocksAt(s.locks, s.callers, c, RecordStep(s, c, after, report).callers[c].stage);
      }
    case Acquire(c) =>
      if c in s.callers {
        LocksAt(s.locks, s.callers, c, HoldingLock);
      }
    case Inspect(c, snapshot) =>
      if c in s.callers {
        LocksAt(s.locks, s.callers, c, Inspected(snapshot));
      }
    case Launch(c) =>
      if c in s.callers && s.callers[c].stage.Reserved? {
        LocksAt(s.locks, s.callers, c, Running(s.callers[c].stage.before));
      }
    case Finish(c, attempt) =>
      if c in s.callers && s.callers[c].stage.Running? {
        LocksAt(s.locks, s.callers, c, Ran(s.callers[c].stage.before, attempt));
      }
    case Die(c) =>
      if c in s.callers {
        LocksAt(s.locks, s.callers, c, Stopped);
      }
  }

  lemma StartedOnceAt(history: seq<Event>, requests: map<Id, Reservation>, callers: map<CallerId, Caller>,
                      c: CallerId, stage: Stage)
    requires StartedOnce(history, requests, callers) && c in callers && !stage.Reserved?
    ensures StartedOnce(history, requests, SetStage(callers, c, stage))
  {
    forall id ensures OnceFor(history, requests, SetStage(callers, c, stage), id) {
      assert OnceFor(history, requests, callers, id);
    }
  }

  lemma StartedOnceAppend(history: seq<Event>, requests: map<Id, Reservation>, callers: map<CallerId, Caller>, e: Event)
    requires StartedOnce(history, requests, callers) && !e.Started?
    ensures StartedOnce(history + [e], requests, callers)
  {
    forall id ensures OnceFor(history + [e], requests, callers, id) {
      assert OnceFor(history, requests, callers, id);
      StartsAppend(history, e, id);
    }
  }

  // Launching is the one step that starts a command, and its caller leaves the reserved stage.
  lemma StartedOnceStart(history: seq<Event>, requests: map<Id, Reservation>, callers: map<CallerId, Caller>,
                         c: CallerId, before: Snapshot)
    requires OwnersAgree(requests, callers) && StartedOnce(history, requests, callers)
    requires c in callers && callers[c].stage.Reserved?
    ensures StartedOnce(history + [Started(callers[c].id)], requests, SetStage(callers, c, Running(before)))
  {
    var e := Started(callers[c].id);
    forall id ensures OnceFor(history + [e], requests, SetStage(callers, c, Running(before)), id) {
      assert OnceFor(history, requests, callers, id);
      StartsAppend(history, e, id);
    }
  }

  lemma StartedOnceLaunch(s: State, c: CallerId)
    requires OwnersAgree(s.requests, s.callers) && StartedOnce(s.history, s.requests, s.callers)
    requires c in s.callers && s.callers[c].stage.Reserved?
    ensures var s' := Next(s, Launch(c)); StartedOnce(s'.history, s'.requests, s'.callers)
  {
    StartedOnceStart(s.history, s.requests, s.callers, c, s.callers[c].stage.before);
  }

  lemma StartedOnceReserve(s: State, c: CallerId, granted: bool)
    requires OwnersAgree(s.requests, s.callers) && StartedOnce(s.history, s.requests, s.callers)
    requires c in s.callers && s.callers[c].stage.Inspected?
    ensures var s' := ReserveStep(s, c, granted); StartedOnce(s'.history, s'.requests, s'.callers)
  {
    var s' := ReserveStep(s, c, granted);
    forall id ensures OnceFor(s'.history, s'.requests, s'.callers, id) {
      assert OnceFor(s.history, s.requests, s.callers, id);
    }
  }

  lemma StartedOnceKept(s: State, a: Action)
    requires OwnersAgree(s.requests, s.callers) && StartedOnce(s.history, s.requests, s.callers)
    ensures var s' := Next(s, a); StartedOnce(s'.history, s'.requests, s'.callers)
  {
    var s' := Next(s, a);
    if a.Enter? {
      forall id ensures OnceFor(s'.history, s'.requests, s'.callers, id) {
        assert OnceFor(s.history, s.requests, s.callers, id);
      }
    } else if a.Launch? && a.c in s.callers && s.callers[a.c].stage.Reserved? {
      StartedOnceLaunch(s, a.c);
    } else if a.Reserve? && a.c in s.callers && s.callers[a.c].stage.Inspected? {
      StartedOnceReserve(s, a.c, a.granted);
    } else {
      if s'.history != s.history {
        StartedOnceAppend(s.history, s.requests, s.callers, s'.history[|s.history|]);
      }
      if !a.Recover? && s'.callers != s.callers {
        StartedOnceAt(s'.history, s.requests, s.callers, a.c, s'.callers[a.c].stage);
      }
    }
  }

  lemma RepliesAt(results: map<Id, Record>, callers: map<CallerId, Caller>, c: CallerId, stage: Stage)
    requires RepliesAgree(results, callers) && c in callers
    requires stage.Returned? ==> callers[c].id in results && results[callers[c].id] == stage.record
    ensures RepliesAgree(results, SetStage(callers, c, stage))
  {
  }

  lemma RepliesGrow(results: map<Id, Record>, results': map<Id, Record>, callers: map<CallerId, Caller>)
    requires RepliesAgree(results, callers)
    requires forall id :: id in results ==> id in results' && results'[id] == results[id]
    ensures RepliesAgree(results', callers)
  {
  }

  lemma RepliesKept(s: State, a: Action)
    requires RepliesAgree(s.results, s.callers)
    ensures RepliesAgree(Next(s, a).results, Next(s, a).callers)
  {
    var s' := Next(s, a);
    NeverOverwritten(s, a);
    RepliesGrow(s.results, s'.results, s.callers);
    if a.Enter? {
    } else if a.Recover? {
      assert s'.callers == s.callers;
    } else if s'.callers != s.callers {
      ReplyIsStored(s, a);
      RepliesAt(s'.results, s.callers, a.c, s'.callers[a.c].stage);
    }
  }

  lemma ReplyIsStored(s: State, a: Action)
    requires !a.Enter? && !a.Recover? && Next(s, a).callers != s.callers
    ensures a.c in s.callers && Next(s, a).callers == SetStage(s.callers, a.c, Next(s, a).callers[a.c].stage)
    ensures Next(s, a).callers[a.c].stage.Returned? ==>
              s.callers[a.c].id in Next(s, a).results && Next(s, a).results[s.callers[a.c].id] == Next(s, a).callers[a.c].stage.record
  {
  }

  /** Every result that is new in `s'` has a row and is explained by the event that was added. */
  ghost predicate NewResultsExplained(s: State, s': State) {
    forall id :: id in s'.results && id !in s.results ==>
      id in s'.requests && |s'.history| == |s.history| + 1 && Explains(s'.history[|s.history|], id, s'.results[id])
  }

  lemma ResultsGrow(s: State, s': State)
    requires ResultsExplained(s) && NewResultsExplained(s, s') && s.history <= s'.history
    requires forall id :: id in s.results ==> id in s'.results && s'.results[id] == s.results[id]
    requires forall id :: id in s.requests ==> id in s'.requests
    ensures ResultsExplained(s')
  {
    forall id | id in s'.results
      ensures id in s'.requests && exists e :: e in s'.history && Explains(e, id, s'.results[id])
    {
      if id in s.results {
        var e :| e in s.history && Explains(e, id, s.results[id]);
        assert e in s'.history;
      } else {
        assert s'.history[|s.history|] in s'.history;
      }
    }
  }

  lemma RecordIsExplained(s: State, a: Action)
    requires OwnersAgree(s.requests, s.callers)
    ensures s.history <= Next(s, a).history && NewResultsExplained(s, Next(s, a))
  {
  }

  lemma ResultsKept(s: State, a: Action)
    requires ResultsExplained(s) && OwnersAgree(s.requests, s.callers)
    ensures ResultsExplained(Next(s, a))
  {
    NeverOverwritten(s, a);
    RecordIsExplained(s, a);
    ResultsGrow(s, Next(s, a));
  }

  // Results are immutable and so are the rows they belong to.
  lemma NeverOverwritten(s: State, a: Action)
    ensures forall id :: id in s.results ==> id in Next(s, a).results && Next(s, a).results[id] == s.results[id]
    ensures forall id :: id in s.requests ==> id in Next(s, a).requests && Next(s, a).requests[id] == s.requests[id]
  {
  }

  lemma {:induction false} RunKeepsInvariant(actions: seq<Action>)
    ensures Invariant(Run(actions))
  {
    if actions != [] {
      var before, a := Run(actions[..|actions| - 1]), actions[|actions| - 1];
      RunKeepsInvariant(actions[..|actions| - 1]);
      OwnersKept(before, a);
      LocksKept(before, a);
      StartedOnceKept(before, a);
      ResultsKept(before, a);
      RepliesKept(before, a);
    }
  }

  // ----- what holds over every run -----------------------------------------------------------

  // However callers interleave, die, retry and are recovered, a command is started at most once.
  lemma ExecutedAtMostOnce(actions: seq<Action>, id: Id)
    ensures Starts(Run(actions).history, id) <= 1
  {
    RunKeepsInvariant(actions);
    assert OnceFor(Run(actions).history, Run(actions).requests, Run(actions).callers, id);
  }

  // Two callers are never between lock and record in one workspace.
  lemma OneCallerPerWorkspace(actions: seq<Action>, c: CallerId, d: CallerId)
    requires var s := Run(actions);
      && c in s.callers && d in s.callers && s.callers[c].workspace == s.callers[d].workspace
      && s.callers[c].stage.Critical() && s.callers[d].stage.Critical()
    ensures c == d
  {
    RunKeepsInvariant(actions);
  }

  lemma {:induction false} ResultsPersist(actions: seq<Action>, more: seq<Action>, id: Id)
    requires id in Run(actions).results
    ensures id in Run(actions + more).results && Run(actions + more).results[id] == Run(actions).results[id]
  {
    if more == [] {
      assert actions + more == actions;
    } else {
      var front, last := more[..|more| - 1], more[|more| - 1];
      ResultsPersist(actions, front, id);
      assert actions + more == (actions + front) + [last];
      assert (actions + more)[..|actions + more| - 1] == actions + front;
      NeverOverwritten(Run(actions + front), last);
    }
  }

  // Whatever a caller was answered for an id is what every later caller of that id is answered.
  lemma RepliesNeverDisagree(actions: seq<Action>, more: seq<Action>, c: CallerId, d: CallerId)
    requires c in Run(actions).callers && Run(actions).callers[c].stage.Returned?
    requires d in Run(actions + more).callers && Run(actions + more).callers[d].stage.Returned?
    requires Run(actions).callers[c].id == Run(actions + more).callers[d].id
    ensures Run(actions).callers[c].stage.record == Run(actions + more).callers[d].stage.record
  {
    RunKeepsInvariant(actions);
    RunKeepsInvariant(actions + more);
    ResultsPersist(actions, more, Run(actions).callers[c].id);
  }

  // A stored `passed` always rests on an execution that met every condition.
  lemma PassedIsVouched(actions: seq<Action>, id: Id)
    requires id in Run(actions).results && Run(actions).results[id].status == Passed
    ensures exists t, a, before, after, report ::
              && Recorded(id, Run(actions).results[id], t, a, before, after, report) in Run(actions).history
              && Vouched(t, a, before, after, report)
  {
    RunKeepsInvariant(actions);
    var s := Run(actions);
    var e :| e in s.history && Explains(e, id, s.results[id]);
    PassedIffVouched(e.template, e.attempt, e.before, e.after, e.report);
  }

  lemma {:induction false} RequestsPersist(actions: seq<Action>, more: seq<Action>, id: Id)
    requires id in Run(actions).requests
    ensures id in Run(actions + more).requests && Run(actions + more).requests[id] == Run(actions).requests[id]
  {
    if more == [] {
      assert actions + more == actions;
    } else {
      var front, last := more[..|more| - 1], more[|more| - 1];
      RequestsPersist(actions, front, id);
      assert actions + more == (actions + front) + [last];
      assert (actions + more)[..|actions + more| - 1] == actions + front;
      NeverOverwritten(Run(actions + front), last);
    }
  }

  function InterruptedRecord(recovery: string): Record {
    Record(Interrupted, None, None, Some(recovery))
  }

  lemma RecoverCloses(actions: seq<Action>, id: Id, recovery: string)
    requires id in Run(actions).requests && id !in Run(actions).results
    ensures
      var s, t := Run(actions), Run(actions + [Recover(id, recovery, true)]);
      && t.requests == s.requests && id in t.results && t.results[id] == InterruptedRecord(recovery)
      && t.history == s.history + [Recovered(id, InterruptedRecord(recovery))]
  {
    var all := actions + [Recover(id, recovery, true)];
    assert all[..|all| - 1] == actions;
  }

  // An interrupted reservation is closed by recovery, which starts nothing.  After any further run, a
  // caller that reaches the reservation is answered with the interruption, or refused for asking about
  // something else, and nothing is started for it either.
  lemma RecoveredIsAnswered(actions: seq<Action>, id: Id, recovery: string, more: seq<Action>, c: CallerId, granted: bool)
    requires id in Run(actions).requests && id !in Run(actions).results
    requires
      var t := Run(actions + [Recover(id, recovery, true)] + more);
      c in t.callers && t.callers[c].id == id && t.callers[c].stage.Inspected?
    ensures
      var t := Run(actions + [Recover(id, recovery, true)] + more);
      var answered := Next(t, Reserve(c, granted));
      && answered.history == t.history && answered.results == t.results
      && answered.callers[c].stage ==
           (if Run(actions).requests[id].identity
               == Identity(t.callers[c].scope, t.callers[c].template.digest, t.callers[c].stage.before.content)
            then Returned(InterruptedRecord(recovery)) else Stopped)
  {
    RecoverCloses(actions, id, recovery);
    ResultsPersist(actions + [Recover(id, recovery, true)], more, id);
    RequestsPersist(actions + [Recover(id, recovery, true)], more, id);
  }
}
