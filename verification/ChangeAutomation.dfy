/** The resumable change workflow: which checkpoint is next, and how it is shown. */
module ChangeAutomation {
  import opened Wrappers

  datatype Stage =
    | RequirementConfirmation | RagDocumentConfirmation | DocumentGeneration | DocumentRevision
    | DocumentConfirmation | ImpactAnalysis | ImpactConfirmation | ExecutionApproval | CodeChange
    | Planning | TestPlanConfirmation | UiTestConfirmation | TestDataExecution | UiVerification
    | Closure | FinalReportConfirmation | CompletedStage
  {
    /** Position in the declared order of stages. */
    function Rank(): nat {
      match this
      case RequirementConfirmation => 0
      case RagDocumentConfirmation => 1
      case DocumentGeneration => 2
      case DocumentRevision => 3
      case DocumentConfirmation => 4
      case ImpactAnalysis => 5
      case ImpactConfirmation => 6
      case ExecutionApproval => 7
      case CodeChange => 8
      case Planning => 9
      case TestPlanConfirmation => 10
      case UiTestConfirmation => 11
      case TestDataExecution => 12
      case UiVerification => 13
      case Closure => 14
      case FinalReportConfirmation => 15
      case CompletedStage => 16
    }

    /** Position among the six public stages. */
    function Public(): (p: nat)
      ensures p < 6
    {
      match this
      case RequirementConfirmation => 0
      case RagDocumentConfirmation | DocumentGeneration | DocumentRevision | DocumentConfirmation => 1
      case ImpactAnalysis | ImpactConfirmation => 2
      case ExecutionApproval | CodeChange => 3
      case Planning | TestPlanConfirmation | UiTestConfirmation | TestDataExecution | UiVerification => 4
      case Closure | FinalReportConfirmation | CompletedStage => 5
    }
  }

  datatype Status = Waiting | Running | Blocked | Completed

  datatype Action =
    | ConfirmRequirement | ConfirmRagDocuments | PrepareDocument | ReviseDocument | ConfirmDocumentDiff
    | PrepareCanonicalAnalysis | AnalyzeCodeScope | ConfirmCodeScope | ProvisionExecutionScope
    | ApplyCodeChange | GenerateUiTestPlan | GenerateOrchestration | InspectGeneratedPlan | ConfirmTestPlan
    | ConfirmUiTest | StartTestDataExecution | Refresh | RunUiVerification | ConfirmFinalReport | ResolveBlocker

  datatype Decision = Decision(stage: Stage, status: Status, next: Option<Action>)

  // ----- inputs -------------------------------------------------------------------------

  datatype Checkpoint = Requirement | RagDocuments | DocumentDiff | CodeScope | TestPlan | UiTest | FinalReport

  /** `Unanswered` is a missing answer or any other text. */
  datatype Answer = Confirmed | Rejected | Unanswered

  datatype Review = RevisionRequested | ReviewConfirmed | OtherReview
  datatype ImpactStatus = ImpactBlocked | ImpactConfirmed | OtherImpact
  datatype EditStatus = InScope | NoChanges | OtherEdit
  datatype EditMode = Working | Committed | OtherMode
  datatype TaskStage = DocumentChangeTask | UiValidationTask | OtherTask
  datatype DataStatus = DataActive | DataPassed | OtherData

  datatype Edit = Edit(status: EditStatus, mode: EditMode, testsPassed: bool, evidenceVerified: bool, lineCoverageOk: bool)

  datatype Workspace = Workspace(
    taskStage: TaskStage, taskCompleted: bool, taskIdentified: bool, recordedImpacts: set<string>,
    impactStatus: ImpactStatus, impactId: Option<string>, confirmationRecorded: bool,
    grantId: Option<string>, scopeBound: bool, scopedPacket: Option<string>, scopedGrant: Option<string>,
    packetId: Option<string>, verificationOnly: bool, edit: Option<Edit>)

  datatype TestData = TestData(status: DataStatus, coverageComplete: bool)

  /** `closurePassed` is `None` while there is no closure result. */
  datatype Execution = Execution(businessCoverageComplete: bool, data: Option<TestData>, closurePassed: Option<bool>)

  datatype Inputs = Inputs(
    confirmations: map<Checkpoint, Answer>, ragReady: bool, hasAnalysisCase: bool, diffTotal: Option<int>,
    review: Review, workspace: Option<Workspace>, hasOrchestration: bool, execution: Option<Execution>)

  // ----- the resolvers, in the source's nesting -------------------------------------------

  function WaitingFor(stage: Stage, action: Action): Decision {
    Decision(stage, Waiting, Some(action))
  }

  function RunningOn(stage: Stage, action: Action): Decision {
    Decision(stage, Running, Some(action))
  }

  function BlockedAt(stage: Stage): Decision {
    Decision(stage, Blocked, Some(ResolveBlocker))
  }

  function AnswerTo(i: Inputs, c: Checkpoint): Answer {
    if c in i.confirmations then i.confirmations[c] else Unanswered
  }

  function ConfirmationDecision(i: Inputs, c: Checkpoint, stage: Stage, action: Action): Option<Decision> {
    match AnswerTo(i, c)
    case Confirmed => None
    case Rejected => Some(BlockedAt(stage))
    case Unanswered => Some(WaitingFor(stage, action))
  }

  function DecideDocumentStage(i: Inputs): Option<Decision> {
    var requirement := ConfirmationDecision(i, Requirement, RequirementConfirmation, ConfirmRequirement);
    if requirement.Some? then requirement
    else if !i.ragReady then Some(BlockedAt(RagDocumentConfirmation))
    else
      var rag := ConfirmationDecision(i, RagDocuments, RagDocumentConfirmation, ConfirmRagDocuments);
      if rag.Some? then rag
      else if !i.hasAnalysisCase then Some(WaitingFor(DocumentGeneration, PrepareDocument))
      else if i.diffTotal.None? || i.diffTotal.value == 0 then Some(WaitingFor(DocumentGeneration, PrepareDocument))
      else if i.review.RevisionRequested? && i.workspace.Some? && i.workspace.value.taskStage.DocumentChangeTask? then
        Some(WaitingFor(DocumentRevision, ReviseDocument))
      else if !i.review.ReviewConfirmed? then
        ConfirmationDecision(i, DocumentDiff, DocumentConfirmation, ConfirmDocumentDiff)
      else None
  }

  predicate ScopeStale(w: Workspace) {
    || !w.scopeBound
    || (w.scopedPacket.Some? && w.scopedPacket != w.packetId)
    || (w.scopedGrant.Some? && w.scopedGrant != w.grantId)
  }

  function DecideCodeScopeStage(i: Inputs): Option<Decision> {
    if i.workspace.None? then Some(WaitingFor(ImpactAnalysis, PrepareCanonicalAnalysis))
    else
      var w := i.workspace.value;
      if w.impactStatus.ImpactBlocked? then Some(BlockedAt(ImpactAnalysis))
      else if w.impactId.None? then Some(WaitingFor(ImpactAnalysis, PrepareCanonicalAnalysis))
      else if w.taskIdentified && w.impactId.value !in w.recordedImpacts then
        Some(WaitingFor(ImpactAnalysis, AnalyzeCodeScope))
      else
        var scope :=
          if !w.confirmationRecorded || !w.impactStatus.ImpactConfirmed? then
            ConfirmationDecision(i, CodeScope, ImpactConfirmation, ConfirmCodeScope)
          else None;
        if scope.Some? then scope
        else if w.grantId.None? then Some(RunningOn(ExecutionApproval, ProvisionExecutionScope))
        else if ScopeStale(w) then Some(RunningOn(ExecutionApproval, ProvisionExecutionScope))
        else None
  }

  predicate EditAccepted(w: Workspace, e: Edit) {
    e.status.InScope? || (w.verificationOnly && e.status.NoChanges?)
  }

  /** `Err` is the RuntimeError for a missing workspace. */
  function DecideCompileTestStage(i: Inputs): Result<Option<Decision>, string> {
    if i.workspace.None? then Err("no workspace")
    else
      var w := i.workspace.value;
      if w.edit.None? then Ok(Some(WaitingFor(CodeChange, ApplyCodeChange)))
      else
        var e := w.edit.value;
        if e.mode.Working? then
          Ok(Some(if EditAccepted(w, e) then WaitingFor(CodeChange, ApplyCodeChange) else BlockedAt(CodeChange)))
        else if !e.mode.Committed? || !EditAccepted(w, e) || !e.testsPassed || !e.evidenceVerified || !e.lineCoverageOk then
          Ok(Some(BlockedAt(CodeChange)))
        else if !w.taskCompleted || !w.taskStage.UiValidationTask? then
          Ok(Some(WaitingFor(CodeChange, GenerateUiTestPlan)))
        else if !i.hasOrchestration then Ok(Some(RunningOn(Planning, GenerateOrchestration)))
        else Ok(None)
  }

  function DecideUiAndClosureStage(i: Inputs): Decision {
    var m := if i.execution.Some? then i.execution.value else Execution(false, None, None);
    if !m.businessCoverageComplete then BlockedAt(Planning)
    else
      var plan := ConfirmationDecision(i, TestPlan, TestPlanConfirmation, ConfirmTestPlan);
      if plan.Some? then plan.value
      else if m.data.None? then WaitingFor(TestDataExecution, StartTestDataExecution)
      else if m.data.value.status.DataActive? then RunningOn(TestDataExecution, Refresh)
      else if !m.data.value.status.DataPassed? then BlockedAt(TestDataExecution)
      else if !m.data.value.coverageComplete then BlockedAt(TestDataExecution)
      else if m.closurePassed.None? then WaitingFor(UiVerification, RunUiVerification)
      else if m.closurePassed.value then
        var report := ConfirmationDecision(i, FinalReport, FinalReportConfirmation, ConfirmFinalReport);
        if report.Some? then report.value else Decision(CompletedStage, Completed, None)
      else BlockedAt(Closure)
  }

  /** The resolvers in order, then the validator; `Err` is any exception. */
  function Decide(i: Inputs): Result<Decision, string> {
    var document := DecideDocumentStage(i);
    if document.Some? then Validated(document.value)
    else
      var scope := DecideCodeScopeStage(i);
      if scope.Some? then Validated(scope.value)
      else
        match DecideCompileTestStage(i)
        case Err(e) => Err(e)
        case Ok(Some(d)) => Validated(d)
        case Ok(None) => Validated(DecideUiAndClosureStage(i))
  }

  // ----- the validator -------------------------------------------------------------------

  predicate IsConfirmation(a: Action) {
    a.ConfirmRequirement? || a.ConfirmRagDocuments? || a.ConfirmDocumentDiff? || a.ConfirmCodeScope?
    || a.ConfirmTestPlan? || a.ConfirmUiTest? || a.ConfirmFinalReport?
  }

  predicate AllowedAt(a: Action, stage: Stage) {
    match a
    case ConfirmRequirement => stage.RequirementConfirmation?
    case ConfirmRagDocuments => stage.RagDocumentConfirmation?
    case PrepareDocument => stage.DocumentGeneration?
    case ReviseDocument => stage.DocumentRevision?
    case ConfirmDocumentDiff => stage.DocumentConfirmation?
    case PrepareCanonicalAnalysis | AnalyzeCodeScope => stage.ImpactAnalysis?
    case ConfirmCodeScope => stage.ImpactConfirmation?
    case ProvisionExecutionScope => stage.ExecutionApproval?
    case ApplyCodeChange | GenerateUiTestPlan => stage.CodeChange?
    case GenerateOrchestration | InspectGeneratedPlan => stage.Planning?
    case ConfirmTestPlan => stage.TestPlanConfirmation?
    case ConfirmUiTest => stage.UiTestConfirmation?
    case StartTestDataExecution | Refresh => stage.TestDataExecution?
    case RunUiVerification => stage.UiVerification?
    case ConfirmFinalReport => stage.FinalReportConfirmation?
    case ResolveBlocker => true
  }

  predicate ValidDecision(d: Decision) {
    && (d.status.Blocked? ==> d.next == Some(ResolveBlocker))
    && (d.stage.CompletedStage? <==> d.status.Completed?)
    && (d.status.Completed? ==> d.next.None?)
    && (d.next.Some? && IsConfirmation(d.next.value) ==> d.status.Waiting?)
    && (d.next.Some? ==> AllowedAt(d.next.value, d.stage))
  }

  function Validated(d: Decision): Result<Decision, string> {
    if ValidDecision(d) then Ok(d) else Err("invalid decision")
  }

  // ----- the same workflow as one list of gates ---------------------------------------------

  /** What is reported while the gate does not pass. */
  datatype Gate = Gate(passes: bool, report: Decision)

  function ConfirmationGate(i: Inputs, c: Checkpoint, waived: bool, stage: Stage, action: Action): Gate {
    Gate(waived || AnswerTo(i, c).Confirmed?,
         if AnswerTo(i, c).Rejected? then BlockedAt(stage) else WaitingFor(stage, action))
  }

  const NO_WORKSPACE := Workspace(OtherTask, false, false, {}, OtherImpact, None, false, None, false, None, None,
                                  None, false, None)
  const NO_EDIT := Edit(OtherEdit, OtherMode, false, false, false)
  const NO_DATA := TestData(OtherData, false)

  function RequestGates(i: Inputs): seq<Gate> {
    [ ConfirmationGate(i, Requirement, false, RequirementConfirmation, ConfirmRequirement),
      Gate(i.ragReady, BlockedAt(RagDocumentConfirmation)),
      ConfirmationGate(i, RagDocuments, false, RagDocumentConfirmation, ConfirmRagDocuments) ]
  }

  function DiffGates(i: Inputs): seq<Gate> {
    var inRevision := i.workspace.Some? && i.workspace.value.taskStage.DocumentChangeTask?;
    [ Gate(i.hasAnalysisCase, WaitingFor(DocumentGeneration, PrepareDocument)),
      Gate(i.diffTotal.Some? && i.diffTotal.value != 0, WaitingFor(DocumentGeneration, PrepareDocument)),
      Gate(!i.review.RevisionRequested? || !inRevision, WaitingFor(DocumentRevision, ReviseDocument)),
      ConfirmationGate(i, DocumentDiff, i.review.ReviewConfirmed?, DocumentConfirmation, ConfirmDocumentDiff) ]
  }

  function DocumentGates(i: Inputs): seq<Gate> {
    RequestGates(i) + DiffGates(i)
  }

  function ScopeGates(i: Inputs): seq<Gate> {
    var w := if i.workspace.Some? then i.workspace.value else NO_WORKSPACE;
    [ Gate(i.workspace.Some?, WaitingFor(ImpactAnalysis, PrepareCanonicalAnalysis)),
      Gate(!w.impactStatus.ImpactBlocked?, BlockedAt(ImpactAnalysis)),
      Gate(w.impactId.Some?, WaitingFor(ImpactAnalysis, PrepareCanonicalAnalysis)),
      Gate(!w.taskIdentified || (w.impactId.Some? && w.impactId.value in w.recordedImpacts),
           WaitingFor(ImpactAnalysis, AnalyzeCodeScope)),
      ConfirmationGate(i, CodeScope, w.confirmationRecorded && w.impactStatus.ImpactConfirmed?,
                       ImpactConfirmation, ConfirmCodeScope),
      Gate(w.grantId.Some? && !ScopeStale(w), RunningOn(ExecutionApproval, ProvisionExecutionScope)) ]
  }

  function CompileGates(i: Inputs): seq<Gate> {
    var w := if i.workspace.Some? then i.workspace.value else NO_WORKSPACE;
    var e := if w.edit.Some? then w.edit.value else NO_EDIT;
    var coded := e.mode.Committed? && EditAccepted(w, e) && e.testsPassed && e.evidenceVerified && e.lineCoverageOk;
    [ Gate(w.edit.Some?, WaitingFor(CodeChange, ApplyCodeChange)),
      Gate(!e.mode.Working?, if EditAccepted(w, e) then WaitingFor(CodeChange, ApplyCodeChange) else BlockedAt(CodeChange)),
      Gate(coded, BlockedAt(CodeChange)),
      Gate(w.taskCompleted && w.taskStage.UiValidationTask?, WaitingFor(CodeChange, GenerateUiTestPlan)),
      Gate(i.hasOrchestration, RunningOn(Planning, GenerateOrchestration)) ]
  }

  function TestGates(i: Inputs): seq<Gate> {
    var m := if i.execution.Some? then i.execution.value else Execution(false, None, None);
    var data := if m.data.Some? then m.data.value else NO_DATA;
    [ Gate(m.businessCoverageComplete, BlockedAt(Planning)),
      ConfirmationGate(i, TestPlan, false, TestPlanConfirmation, ConfirmTestPlan),
      Gate(m.data.Some?, WaitingFor(TestDataExecution, StartTestDataExecution)),
      Gate(data.status.DataPassed? && data.coverageComplete,
           if data.status.DataActive? then RunningOn(TestDataExecution, Refresh) else BlockedAt(TestDataExecution)) ]
  }

  function ClosureGates(i: Inputs): seq<Gate> {
    var m := if i.execution.Some? then i.execution.value else Execution(false, None, None);
    [ Gate(m.closurePassed.Some?, WaitingFor(UiVerification, RunUiVerification)),
      Gate(m.closurePassed == Some(true), BlockedAt(Closure)),
      ConfirmationGate(i, FinalReport, false, FinalReportConfirmation, ConfirmFinalReport) ]
  }

  function UiGates(i: Inputs): seq<Gate> {
    TestGates(i) + ClosureGates(i)
  }

  /** Every checkpoint of the workflow, in order. */
  function Gates(i: Inputs): seq<Gate> {
    DocumentGates(i) + ScopeGates(i) + CompileGates(i) + UiGates(i)
  }

  const FINISHED := Decision(CompletedStage, Completed, None)

  /** The report of the first gate from `n` on that does not pass. */
  function FirstFailing(gates: seq<Gate>, n: nat): Option<Decision>
    requires n <= |gates|
    decreases |gates| - n
  {
    if n == |gates| then None
    else if !gates[n].passes then Some(gates[n].report)
    else FirstFailing(gates, n + 1)
  }

  predicate AllPass(gates: seq<Gate>) {
    forall n :: 0 <= n < |gates| ==> gates[n].passes
  }

  lemma {:induction false} FirstFailingNone(gates: seq<Gate>, n: nat)
    requires n <= |gates|
    ensures FirstFailing(gates, n) == None <==> forall m :: n <= m < |gates| ==> gates[m].passes
    decreases |gates| - n
  {
    if n < |gates| {
      FirstFailingNone(gates, n + 1);
    }
  }

  // ----- the resolvers are the gates ------------------------------------------------------

  lemma UnfoldSeven(g: seq<Gate>)
    requires |g| <= 7
    ensures FirstFailing(g, 0) ==
            if |g| > 0 && !g[0].passes then Some(g[0].report)
            else if |g| > 1 && !g[1].passes then Some(g[1].report)
            else if |g| > 2 && !g[2].passes then Some(g[2].report)
            else if |g| > 3 && !g[3].passes then Some(g[3].report)
            else if |g| > 4 && !g[4].passes then Some(g[4].report)
            else if |g| > 5 && !g[5].passes then Some(g[5].report)
            else if |g| > 6 && !g[6].passes then Some(g[6].report)
            else None
  {
    if FirstFailing(g, 0).None? {
      FirstFailingNone(g, 0);
    } else {
      var n := FirstFailingAt(g, 0);
    }
  }

  lemma {:induction false} FirstFailingAt(g: seq<Gate>, n: nat) returns (m: nat)
    requires n <= |g| && FirstFailing(g, n).Some?
    ensures n <= m < |g| && !g[m].passes && FirstFailing(g, n) == Some(g[m].report)
    ensures forall k :: n <= k < m ==> g[k].passes
    decreases |g| - n
  {
    if !g[n].passes {
      m := n;
    } else {
      m := FirstFailingAt(g, n + 1);
    }
  }

  lemma DocumentStageIsGates(i: Inputs)
    ensures DecideDocumentStage(i) == FirstFailing(DocumentGates(i), 0)
  {
    UnfoldSeven(DocumentGates(i));
  }

  lemma ScopeStageIsGates(i: Inputs)
    ensures DecideCodeScopeStage(i) == FirstFailing(ScopeGates(i), 0)
  {
    UnfoldSeven(ScopeGates(i));
  }

  lemma CompileStageIsGates(i: Inputs)
    requires i.workspace.Some?
    ensures DecideCompileTestStage(i) == Ok(FirstFailing(CompileGates(i), 0))
  {
    UnfoldSeven(CompileGates(i));
  }

  lemma UiStageIsGates(i: Inputs)
    ensures DecideUiAndClosureStage(i) ==
            if FirstFailing(UiGates(i), 0).Some? then FirstFailing(UiGates(i), 0).value else FINISHED
  {
    UnfoldSeven(UiGates(i));
  }

  lemma {:induction false} FirstFailingConcat(a: seq<Gate>, b: seq<Gate>, n: nat)
    requires n <= |a|
    ensures FirstFailing(a + b, n) == if FirstFailing(a, n).Some? then FirstFailing(a, n) else FirstFailing(b, 0)
    decreases |a| - n
  {
    if n == |a| {
      FirstFailingSuffix(a, b, 0);
    } else {
      FirstFailingConcat(a, b, n + 1);
    }
  }

  lemma {:induction false} FirstFailingSuffix(a: seq<Gate>, b: seq<Gate>, n: nat)
    requires n <= |b|
    ensures FirstFailing(a + b, |a| + n) == FirstFailing(b, n)
    decreases |b| - n
  {
    if n < |b| {
      FirstFailingSuffix(a, b, n + 1);
    }
  }

  /** Reports that the validator accepts, short of completion, in ascending order of stage. */
  predicate Sound(gates: seq<Gate>, lo: nat, hi: nat) {
    && (forall n :: 0 <= n < |gates| ==> ValidDecision(gates[n].report) && lo <= gates[n].report.stage.Rank() <= hi)
    && (forall m, n :: 0 <= m < n < |gates| ==> gates[m].report.stage.Rank() <= gates[n].report.stage.Rank())
  }

  lemma SoundConcat(a: seq<Gate>, b: seq<Gate>, lo: nat, mid: nat, hi: nat)
    requires Sound(a, lo, mid) && Sound(b, mid, hi) && lo <= mid <= hi
    ensures Sound(a + b, lo, hi)
  {
  }

  lemma RequestGatesSound(i: Inputs)
    ensures Sound(RequestGates(i), 0, 2)
  {
  }

  lemma DiffGatesSound(i: Inputs)
    ensures Sound(DiffGates(i), 2, 5)
  {
  }

  lemma DocumentGatesSound(i: Inputs)
    ensures Sound(DocumentGates(i), 0, 5)
  {
    RequestGatesSound(i);
    DiffGatesSound(i);
    SoundConcat(RequestGates(i), DiffGates(i), 0, 2, 5);
  }

  lemma ScopeGatesSound(i: Inputs)
    ensures Sound(ScopeGates(i), 5, 8)
  {
  }

  lemma CompileGatesSound(i: Inputs)
    ensures Sound(CompileGates(i), 8, 9)
  {
  }

  lemma TestGatesSound(i: Inputs)
    ensures Sound(TestGates(i), 9, 12)
  {
  }

  lemma ClosureGatesSound(i: Inputs)
    ensures Sound(ClosureGates(i), 12, 15)
  {
    var gates := ClosureGates(i);
    assert |gates| == 3;
    assert gates[0].report.stage.UiVerification? && gates[1].report.stage.Closure? && gates[2].report.stage.FinalReportConfirmation?;
  }

  lemma UiGatesSound(i: Inputs)
    ensures Sound(UiGates(i), 9, 15)
  {
    TestGatesSound(i);
    ClosureGatesSound(i);
    SoundConcat(TestGates(i), ClosureGates(i), 9, 12, 15);
  }

  lemma GatesSound(i: Inputs)
    ensures Sound(Gates(i), 0, 15)
  {
    var a, b, c, d := DocumentGates(i), ScopeGates(i), CompileGates(i), UiGates(i);
    DocumentGatesSound(i);
    ScopeGatesSound(i);
    CompileGatesSound(i);
    UiGatesSound(i);
    SoundConcat(a, b, 0, 5, 8);
    SoundConcat(a + b, c, 0, 8, 9);
    SoundConcat(a + b + c, d, 0, 9, 15);
  }

  lemma FourSegments(a: seq<Gate>, b: seq<Gate>, c: seq<Gate>, d: seq<Gate>)
    ensures FirstFailing(a + b + c + d, 0) ==
            if FirstFailing(a, 0).Some? then FirstFailing(a, 0)
            else if FirstFailing(b, 0).Some? then FirstFailing(b, 0)
            else if FirstFailing(c, 0).Some? then FirstFailing(c, 0)
            else FirstFailing(d, 0)
  {
    FirstFailingConcat(a + b + c, d, 0);
    FirstFailingConcat(a + b, c, 0);
    FirstFailingConcat(a, b, 0);
  }

  /** The decision a gate list stands for. */
  function Reported(gates: seq<Gate>): Decision {
    var first := FirstFailing(gates, 0);
    if first.Some? then first.value else FINISHED
  }

  lemma ReportedIsSound(gates: seq<Gate>)
    requires Sound(gates, 0, 15)
    ensures ValidDecision(Reported(gates))
    ensures Reported(gates) == FINISHED <==> AllPass(gates)
  {
    FirstFailingNone(gates, 0);
    if FirstFailing(gates, 0).Some? {
      var n := FirstFailingAt(gates, 0);
    }
  }

  // The nested resolvers report the first gate that does not pass.  Nothing raises: the branch
  // for a missing workspace is unreachable and the validator accepts every decision.
  lemma DecideIsFirstFailingGate(i: Inputs)
    ensures Decide(i) == Ok(Reported(Gates(i)))
    ensures ValidDecision(Reported(Gates(i)))
  {
    GatesSound(i);
    ReportedIsSound(Gates(i));
    FourSegments(DocumentGates(i), ScopeGates(i), CompileGates(i), UiGates(i));
    DocumentStageIsGates(i);
    ScopeStageIsGates(i);
    UiStageIsGates(i);
    if i.workspace.Some? {
      CompileStageIsGates(i);
    } else {
      assert DecideCodeScopeStage(i).Some?;
    }
  }

  // The workflow completes exactly when every checkpoint passes.
  lemma CompletedIffAllPass(i: Inputs)
    ensures Decide(i) == Ok(FINISHED) <==> AllPass(Gates(i))
  {
    DecideIsFirstFailingGate(i);
    GatesSound(i);
    ReportedIsSound(Gates(i));
  }

  // ----- progress ------------------------------------------------------------------------------

  /** The same inputs with one more checkpoint confirmed. */
  function Confirm(i: Inputs, c: Checkpoint): Inputs {
    i.(confirmations := i.confirmations[c := Confirmed])
  }

  /** Gate by gate, `b` passes whatever `a` passes and reports the same stage. */
  predicate NoWorse(a: seq<Gate>, b: seq<Gate>) {
    && |a| == |b|
    && forall n :: 0 <= n < |a| ==> (a[n].passes ==> b[n].passes) && a[n].report.stage == b[n].report.stage
  }

  lemma NoWorseConcat(a: seq<Gate>, b: seq<Gate>, a': seq<Gate>, b': seq<Gate>)
    requires NoWorse(a, a') && NoWorse(b, b')
    ensures NoWorse(a + b, a' + b')
  {
  }

  lemma ConfirmDocumentNoWorse(i: Inputs, c: Checkpoint)
    ensures NoWorse(DocumentGates(i), DocumentGates(Confirm(i, c)))
  {
  }

  lemma ConfirmScopeNoWorse(i: Inputs, c: Checkpoint)
    ensures NoWorse(ScopeGates(i), ScopeGates(Confirm(i, c)))
  {
  }

  lemma ConfirmUiNoWorse(i: Inputs, c: Checkpoint)
    ensures NoWorse(UiGates(i), UiGates(Confirm(i, c)))
  {
  }

  lemma ConfirmIsNoWorse(i: Inputs, c: Checkpoint)
    ensures NoWorse(Gates(i), Gates(Confirm(i, c)))
  {
    var j := Confirm(i, c);
    ConfirmDocumentNoWorse(i, c);
    ConfirmScopeNoWorse(i, c);
    ConfirmUiNoWorse(i, c);
    assert CompileGates(j) == CompileGates(i);
    NoWorseConcat(DocumentGates(i), ScopeGates(i), DocumentGates(j), ScopeGates(j));
    NoWorseConcat(DocumentGates(i) + ScopeGates(i), CompileGates(i), DocumentGates(j) + ScopeGates(j), CompileGates(j));
    NoWorseConcat(DocumentGates(i) + ScopeGates(i) + CompileGates(i), UiGates(i),
                  DocumentGates(j) + ScopeGates(j) + CompileGates(j), UiGates(j));
  }

  lemma NoWorseNeverMovesBack(a: seq<Gate>, b: seq<Gate>)
    requires Sound(a, 0, 15) && NoWorse(a, b)
    ensures Reported(a).stage.Rank() <= Reported(b).stage.Rank()
  {
    if FirstFailing(b, 0).Some? {
      var n := FirstFailingAt(b, 0);
      FirstFailingNone(a, 0);
      assert !a[n].passes;
      var m := FirstFailingAt(a, 0);
      assert m <= n;
    } else if FirstFailing(a, 0).Some? {
      var m := FirstFailingAt(a, 0);
    }
  }

  lemma ReportNeverMovesBack(i: Inputs, c: Checkpoint)
    ensures Reported(Gates(i)).stage.Rank() <= Reported(Gates(Confirm(i, c))).stage.Rank()
  {
    ConfirmIsNoWorse(i, c);
    GatesSound(i);
    NoWorseNeverMovesBack(Gates(i), Gates(Confirm(i, c)));
  }

  // Confirming a checkpoint never moves the workflow back in the order of stages.
  lemma ConfirmNeverMovesBack(i: Inputs, c: Checkpoint, d: Decision, d': Decision)
    requires Decide(i) == Ok(d) && Decide(Confirm(i, c)) == Ok(d')
    ensures d.stage.Rank() <= d'.stage.Rank()
  {
    DecideIsFirstFailingGate(i);
    DecideIsFirstFailingGate(Confirm(i, c));
    ReportNeverMovesBack(i, c);
  }
}
