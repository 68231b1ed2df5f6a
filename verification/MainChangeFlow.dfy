/** The six public stages: the persisted decision against the evidence, and the flow shown. */
module MainChangeFlow {
  import opened Wrappers
  import CA = ChangeAutomation

  const STAGES: nat := 6

  /** A persisted automation state; `None` and `Unknown` stand for text outside the tables. */
  datatype ActionText = NoAction | Known(action: CA.Action) | Unknown

  datatype Persisted = Persisted(stage: Option<CA.Stage>, status: Option<CA.Status>, next: ActionText)

  datatype Projection = Projection(stage: CA.Stage, publicStage: nat, status: CA.Status, next: Option<CA.Action>)

  /** Persists a decision as the automation state. */
  function Persist(d: CA.Decision): Persisted {
    Persisted(Some(d.stage), Some(d.status), if d.next.Some? then Known(d.next.value) else NoAction)
  }

  function Project(p: Persisted): Result<Projection, string> {
    if p.stage.None? || p.status.None? || p.next.Unknown? then Err("unknown persisted state")
    else
      var next := if p.next.Known? then Some(p.next.action) else None;
      if CA.ValidDecision(CA.Decision(p.stage.value, p.status.value, next)) then
        Ok(Projection(p.stage.value, p.stage.value.Public(), p.status.value, next))
      else Err("invalid persisted state")
  }

  // Whatever the workflow decides can be read back, as itself.
  lemma DecisionsProject(i: CA.Inputs, d: CA.Decision)
    requires CA.Decide(i) == Ok(d)
    ensures Project(Persist(d)) == Ok(Projection(d.stage, d.stage.Public(), d.status, d.next))
  {
    CA.DecideIsFirstFailingGate(i);
  }

  lemma PublicFollowsRank(a: CA.Stage, b: CA.Stage)
    requires a.Rank() <= b.Rank()
    ensures a.Public() <= b.Public()
  {
  }

  // ----- normalising the public statuses ------------------------------------------------------

  datatype Shown = Waiting | Running | Blocked | Completed | NotRequired

  /** The first blocked evidence status below `n`. */
  function FirstBlocked(evidence: seq<Shown>, n: nat): (k: Option<nat>)
    requires n <= |evidence|
    ensures k.Some? ==> k.value < n && evidence[k.value].Blocked?
    ensures k.Some? ==> forall j :: 0 <= j < k.value ==> !evidence[j].Blocked?
    ensures k.None? ==> forall j :: 0 <= j < n ==> !evidence[j].Blocked?
  {
    if n == 0 then None
    else
      var before := FirstBlocked(evidence, n - 1);
      if before.Some? then before else if evidence[n - 1].Blocked? then Some(n - 1) else None
  }

  /** The statuses shown; `Err` is a wrong number of evidence statuses or an unreadable state. */
  method NormalizePublicStatuses(p: Persisted, evidence: seq<Shown>) returns (r: Result<seq<Shown>, string>)
    ensures r.Ok? <==> |evidence| == STAGES && Project(p).Ok?
    ensures r.Ok? ==> r.value == Normalized(Project(p).value, evidence)
  {
    if |evidence| != STAGES {
      return Err("wrong evidence count");
    }
    var projected := Project(p);
    if projected.Err? {
      return Err(projected.error);
    }
    var projection := projected.value;
    var current: nat;
    if projection.stage.CompletedStage? {
      var blocked := FirstBlocked(evidence, STAGES);
      if blocked.None? {
        return Ok(AllCompleted());
      }
      current := blocked.value;
    } else {
      var earlier := FirstBlocked(evidence, projection.publicStage + 1);
      current := if earlier.Some? then earlier.value else projection.publicStage;
    }
    var statuses: seq<Shown> := [];
    for index := 0 to STAGES
      invariant |statuses| == index
      invariant forall j :: 0 <= j < index ==> statuses[j] == if j < current then Completed else Waiting
    {
      statuses := statuses + [if index < current then Completed else Waiting];
    }
    var own := if evidence[current].Blocked? || projection.status.Blocked? then Blocked
               else if evidence[current].Running? || projection.status.Running? then Running else Waiting;
    statuses := statuses[current := own];
    ShapeIsNormalized(projection, evidence, current, own, statuses);
    return Ok(statuses);
  }

  function AllCompleted(): (r: seq<Shown>)
    ensures |r| == STAGES && forall j :: 0 <= j < STAGES ==> r[j].Completed?
  {
    [Completed, Completed, Completed, Completed, Completed, Completed]
  }

  /** Stages before `current` completed, `current` as given, the rest waiting. */
  function Shape(current: nat, own: Shown): (r: seq<Shown>)
    requires current < STAGES
    ensures |r| == STAGES
    ensures forall j :: 0 <= j < STAGES ==>
              r[j] == if j < current then Completed else if j == current then own else Waiting
  {
    var at := (j: nat) => if j < current then Completed else if j == current then own else Waiting;
    [at(0), at(1), at(2), at(3), at(4), at(5)]
  }

  /** Where the persisted state and the evidence meet: the first blocked evidence no later than
      the persisted stage, or else the persisted stage; `None` when everything is done. */
  function Current(p: Projection, evidence: seq<Shown>): (k: Option<nat>)
    requires |evidence| == STAGES && p.publicStage < STAGES
    ensures k.Some? ==> k.value < STAGES
  {
    if p.stage.CompletedStage? then FirstBlocked(evidence, STAGES)
    else
      var earlier := FirstBlocked(evidence, p.publicStage + 1);
      if earlier.Some? then earlier else Some(p.publicStage)
  }

  function Normalized(p: Projection, evidence: seq<Shown>): seq<Shown>
    requires |evidence| == STAGES && p.publicStage < STAGES
  {
    match Current(p, evidence)
    case None => AllCompleted()
    case Some(k) =>
      Shape(k, if evidence[k].Blocked? || p.status.Blocked? then Blocked
               else if evidence[k].Running? || p.status.Running? then Running else Waiting)
  }

  lemma ShapeIsNormalized(p: Projection, evidence: seq<Shown>, k: nat, own: Shown, statuses: seq<Shown>)
    requires |evidence| == STAGES && p.publicStage < STAGES && Current(p, evidence) == Some(k)
    requires own == if evidence[k].Blocked? || p.status.Blocked? then Blocked
                    else if evidence[k].Running? || p.status.Running? then Running else Waiting
    requires |statuses| == STAGES
    requires forall j :: 0 <= j < STAGES ==>
               statuses[j] == if j < k then Completed else if j == k then own else Waiting
    ensures statuses == Normalized(p, evidence)
  {
    assert statuses == Shape(k, own);
  }

  /** A projection of a valid persisted state. */
  predicate FromState(p: Projection) {
    && p.publicStage == p.stage.Public()
    && CA.ValidDecision(CA.Decision(p.stage, p.status, p.next))
  }

  // The statuses never show work beyond the persisted stage, never skip over blocked evidence,
  // and are all completed exactly when the persisted stage is and no evidence objects.
  lemma NormalizedMeaning(p: Projection, evidence: seq<Shown>)
    requires |evidence| == STAGES && FromState(p)
    ensures var r := Normalized(p, evidence);
      && |r| == STAGES
      && ((forall j :: 0 <= j < STAGES ==> r[j].Completed?) <==>
            p.stage.CompletedStage? && forall j :: 0 <= j < STAGES ==> !evidence[j].Blocked?)
      && (forall j :: 0 <= j < STAGES && r[j].Completed? ==> j <= p.publicStage && !evidence[j].Blocked?)
      && (forall j :: 0 <= j < STAGES && (r[j].Blocked? || r[j].Running?) ==>
            j <= p.publicStage && forall k :: 0 <= k < j ==> r[k].Completed?)
      && (forall j :: 0 <= j < STAGES && evidence[j].Blocked? && j <= p.publicStage ==>
            exists k :: 0 <= k <= j && r[k].Blocked?)
  {
    var r, current := Normalized(p, evidence), Current(p, evidence);
    if current.Some? {
      var k := current.value;
      assert !r[k].Completed?;
      forall j | 0 <= j < STAGES && evidence[j].Blocked? && j <= p.publicStage
        ensures exists m :: 0 <= m <= j && r[m].Blocked?
      {
        assert k <= j && r[k].Blocked?;
      }
    }
  }

  // ----- the flow shown ------------------------------------------------------------------------

  datatype Overall = FlowBlocked | FlowCompleted | InProgress

  datatype Flow = Flow(statuses: seq<Shown>, overall: Overall, current: nat, progressPercent: int)

  predicate IsDone(s: Shown) {
    s.Completed? || s.NotRequired?
  }

  /** The first stage that is not done, or the last stage. */
  function FirstOpen(statuses: seq<Shown>, n: nat): (k: nat)
    requires |statuses| == STAGES && n < STAGES
    requires forall j :: 0 <= j < n ==> IsDone(statuses[j])
    ensures n <= k < STAGES
    ensures forall j :: 0 <= j < k ==> IsDone(statuses[j])
    ensures IsDone(statuses[k]) ==> k == STAGES - 1
    decreases STAGES - n
  {
    if !IsDone(statuses[n]) || n == STAGES - 1 then n else FirstOpen(statuses, n + 1)
  }

  function CountDone(statuses: seq<Shown>): (c: nat)
    ensures c <= |statuses|
  {
    if statuses == [] then 0
    else CountDone(statuses[..|statuses| - 1]) + if IsDone(statuses[|statuses| - 1]) then 1 else 0
  }

  /** Python's `round(a / b)`: to the nearest integer, a half to the even one. */
  function RoundRatio(a: nat, b: nat): int
    requires b > 0
  {
    var q, r := a / b, a % b;
    if 2 * r < b then q else if 2 * r > b then q + 1 else if q % 2 == 0 then q else q + 1
  }

  /** The stage loop: shows every stage and counts what is done. */
  method ShapeStages(statuses: seq<Shown>) returns (flow: Flow)
    requires |statuses| == STAGES
    ensures flow == FlowOf(statuses)
  {
    var current := FirstOpen(statuses, 0);
    var shown: seq<Shown> := [];
    var blocked, completed := false, 0;
    for index := 0 to STAGES
      invariant shown == Truncated(statuses, current)[..index]
      invariant blocked <==> exists j :: 0 <= j < index && shown[j].Blocked?
      invariant completed == CountDone(shown)
    {
      var status := if index <= current then statuses[index] else Waiting;
      assert (shown + [status])[..index] == shown;
      shown := shown + [status];
      blocked := blocked || status.Blocked?;
      completed := completed + if IsDone(status) then 1 else 0;
    }
    assert shown == Truncated(statuses, current);
    flow := Flow(shown,
                 if blocked then FlowBlocked else if completed == STAGES then FlowCompleted else InProgress,
                 current, RoundRatio(completed * 100, STAGES));
  }

  method BuildFlow(automation: Option<Persisted>, evidence: seq<Shown>) returns (r: Result<Flow, string>)
    requires |evidence| == STAGES
    ensures r.Ok? <==> automation.None? || Project(automation.value).Ok?
    ensures r.Ok? ==>
              r.value == FlowOf(if automation.None? then evidence
                                else Normalized(Project(automation.value).value, evidence))
  {
    var statuses := evidence;
    if automation.Some? {
      var normalized := NormalizePublicStatuses(automation.value, evidence);
      if normalized.Err? {
        return Err(normalized.error);
      }
      statuses := normalized.value;
    }
    var flow := ShapeStages(statuses);
    return Ok(flow);
  }

  function Truncated(statuses: seq<Shown>, current: nat): (r: seq<Shown>)
    requires |statuses| == STAGES && current < STAGES
    ensures |r| == STAGES
    ensures forall j :: 0 <= j < STAGES ==> r[j] == if j <= current then statuses[j] else Waiting
  {
    statuses[..current + 1] + seq(STAGES - 1 - current, _ => Waiting)
  }

  function FlowOf(statuses: seq<Shown>): Flow
    requires |statuses| == STAGES
  {
    var current := FirstOpen(statuses, 0);
    var shown := Truncated(statuses, current);
    var blocked := exists j :: 0 <= j < STAGES && shown[j].Blocked?;
    Flow(shown,
         if blocked then FlowBlocked else if CountDone(shown) == STAGES then FlowCompleted else InProgress,
         current, RoundRatio(CountDone(shown) * 100, STAGES))
  }

  lemma {:induction false} CountDonePrefix(statuses: seq<Shown>, k: nat)
    requires k <= |statuses|
    requires forall j :: 0 <= j < k ==> IsDone(statuses[j])
    requires forall j :: k <= j < |statuses| ==> !IsDone(statuses[j])
    ensures CountDone(statuses) == k
  {
    if statuses != [] {
      var front := statuses[..|statuses| - 1];
      CountDonePrefix(front, if k == |statuses| then k - 1 else k);
    }
  }

  // Whatever the six statuses are, the flow shows done stages, one current stage and waiting
  // stages: at most the current stage is blocked, the flow is blocked exactly when it is, and
  // "completed" and 100 percent mean the same.
  lemma FlowShape(statuses: seq<Shown>)
    requires |statuses| == STAGES
    ensures var f := FlowOf(statuses);
      && |f.statuses| == STAGES && f.current < STAGES
      && (forall j :: 0 <= j < f.current ==> IsDone(f.statuses[j]))
      && (forall j :: f.current < j < STAGES ==> f.statuses[j].Waiting?)
      && (forall j :: 0 <= j < STAGES && f.statuses[j].Blocked? ==> j == f.current)
      && (f.overall.FlowBlocked? <==> f.statuses[f.current].Blocked?)
      && (f.overall.FlowCompleted? <==> f.progressPercent == 100)
      && (f.overall.FlowCompleted? <==> forall j :: 0 <= j < STAGES ==> IsDone(statuses[j]))
      && 0 <= f.progressPercent <= 100
  {
    var f := FlowOf(statuses);
    var done := if IsDone(f.statuses[f.current]) then f.current + 1 else f.current;
    CountDonePrefix(f.statuses, done);
    assert done == 0 || done == 1 || done == 2 || done == 3 || done == 4 || done == 5 || done == 6;
  }

  // From a decision to the screen: the current public stage is never past the decided stage, and
  // the flow is completed exactly when the decision is and no evidence is blocked.
  lemma DecisionOnScreen(d: CA.Decision, evidence: seq<Shown>)
    requires CA.ValidDecision(d) && |evidence| == STAGES
    ensures var f := FlowOf(Normalized(Projection(d.stage, d.stage.Public(), d.status, d.next), evidence));
      && f.current <= d.stage.Public()
      && (f.overall.FlowCompleted? <==>
            d.status.Completed? && forall j :: 0 <= j < STAGES ==> !evidence[j].Blocked?)
      && (d.status.Blocked? ==> f.overall.FlowBlocked?)
  {
    var p := Projection(d.stage, d.stage.Public(), d.status, d.next);
    NormalizedMeaning(p, evidence);
    FlowShape(Normalized(p, evidence));
  }
}
