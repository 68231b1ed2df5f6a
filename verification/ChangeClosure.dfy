/** The closing verdict on a change: passed only when every piece of evidence is there. */
module ChangeClosure {
  import opened Wrappers
  import ChangeCoverage

  datatype RunStatus = Passed | Failed | Blocked | Interrupted | ReanalysisRequired | OtherStatus

  datatype TestCase = TestCase(id: string, ui: bool)

  datatype Flow = Flow(id: string, cases: seq<string>)

  datatype FlowResult = FlowResult(flow: string, status: RunStatus)

  datatype DataResult = DataResult(status: RunStatus, cleanup: RunStatus, flows: seq<FlowResult>)

  datatype ScenarioResult = ScenarioResult(scenario: string, status: RunStatus)

  datatype UiResult = UiResult(status: RunStatus, scenarios: seq<ScenarioResult>, unresolvedItems: seq<string>,
                               outOfScope: seq<string>, failureReasons: seq<string>)

  datatype EditStatus = InScope | OutOfScope | NoChanges

  datatype EditResult = EditResult(status: EditStatus, committed: bool, verified: bool, outOfScope: seq<string>,
                                   testRefs: seq<string>, testsPassed: bool, changedPaths: seq<string>)

  datatype LineCoverage = LineCoverage(status: ChangeCoverage.Status, reasons: seq<string>)

  datatype Rule = Rule(id: string, covered: bool)

  datatype RuleReport = RuleReport(rules: seq<Rule>, ruleCount: int, coveredCount: int, percent: real, status: RunStatus)

  datatype Input = Input(
    ready: bool, blockingReasons: seq<string>,
    cases: seq<TestCase>, flows: seq<Flow>, planReady: bool, rules: RuleReport,
    edit: Option<EditResult>, data: Option<DataResult>, ui: Option<UiResult>, lines: Option<LineCoverage>,
    mappings: seq<(string, seq<string>)>,
    verificationOnly: bool, workspaceCurrent: bool, workspaceReason: Option<string>)

  // ----- data flow results by case --------------------------------------------------------

  /** A later result of a flow replaces an earlier one. */
  function ById(results: seq<FlowResult>): map<string, FlowResult> {
    if results == [] then map[]
    else
      var last := results[|results| - 1];
      ById(results[..|results| - 1])[last.flow := last]
  }

  /** One copy of `r` for every time `c` is listed. */
  function Copies(cases: seq<string>, c: string, r: FlowResult): seq<FlowResult> {
    if cases == [] then []
    else Copies(cases[..|cases| - 1], c, r) + if cases[|cases| - 1] == c then [r] else []
  }

  /** The results of the flows that list `c`, in plan order; flows without a result are skipped. */
  function ResultsFor(flows: seq<Flow>, byId: map<string, FlowResult>, c: string): seq<FlowResult> {
    if flows == [] then []
    else
      var last := flows[|flows| - 1];
      ResultsFor(flows[..|flows| - 1], byId, c)
      + if last.id in byId then Copies(last.cases, c, byId[last.id]) else []
  }

  function At(m: map<string, seq<FlowResult>>, c: string): seq<FlowResult> {
    if c in m then m[c] else []
  }

  lemma OneMoreCopy(m: map<string, seq<FlowResult>>, now: map<string, seq<FlowResult>>, cases: seq<string>,
                    i: nat, r: FlowResult, c: string)
    requires i < |cases| && At(now, c) == At(m, c) + Copies(cases[..i], c, r)
    ensures At(now[cases[i] := At(now, cases[i]) + [r]], c) == At(m, c) + Copies(cases[..i + 1], c, r)
  {
    assert cases[..i + 1][..i] == cases[..i];
  }

  method AppendToCases(m: map<string, seq<FlowResult>>, cases: seq<string>, r: FlowResult)
    returns (m': map<string, seq<FlowResult>>)
    ensures forall c :: At(m', c) == At(m, c) + Copies(cases, c, r)
  {
    m' := m;
    for i := 0 to |cases|
      invariant forall c :: At(m', c) == At(m, c) + Copies(cases[..i], c, r)
    {
      forall c {
        OneMoreCopy(m, m', cases, i, r, c);
      }
      m' := m'[cases[i] := At(m', cases[i]) + [r]];
    }
    assert cases[..|cases|] == cases;
  }

  lemma OneMoreFlow(flows: seq<Flow>, byId: map<string, FlowResult>, i: nat, c: string)
    requires i < |flows|
    ensures ResultsFor(flows[..i + 1], byId, c) ==
            ResultsFor(flows[..i], byId, c) + if flows[i].id in byId then Copies(flows[i].cases, c, byId[flows[i].id]) else []
  {
    assert flows[..i + 1][..i] == flows[..i];
  }

  method FlowResultsByCase(flows: seq<Flow>, data: Option<DataResult>) returns (m: map<string, seq<FlowResult>>)
    ensures forall c :: At(m, c) == FlowsOf(flows, data, c)
  {
    m := map[];
    if data.None? {
      return;
    }
    var byId := ById(data.value.flows);
    for i := 0 to |flows|
      invariant forall c :: At(m, c) == ResultsFor(flows[..i], byId, c)
    {
      forall c {
        OneMoreFlow(flows, byId, i, c);
      }
      if flows[i].id in byId {
        m := AppendToCases(m, flows[i].cases, byId[flows[i].id]);
      }
    }
    assert flows[..|flows|] == flows;
  }

  function FlowsOf(flows: seq<Flow>, data: Option<DataResult>, c: string): seq<FlowResult> {
    if data.None? then [] else ResultsFor(flows, ById(data.value.flows), c)
  }

  predicate Lists(f: Flow, c: string) {
    c in f.cases
  }

  lemma {:induction false} CopiesAre(cases: seq<string>, c: string, r: FlowResult)
    ensures forall x :: x in Copies(cases, c, r) <==> x == r && c in cases
  {
    if cases != [] {
      CopiesAre(cases[..|cases| - 1], c, r);
      assert cases == cases[..|cases| - 1] + [cases[|cases| - 1]];
    }
  }

  // Which results a case is judged by.
  lemma {:induction false} ResultsForAre(flows: seq<Flow>, byId: map<string, FlowResult>, c: string, x: FlowResult)
    ensures x in ResultsFor(flows, byId, c) <==> exists f :: f in flows && Lists(f, c) && f.id in byId && byId[f.id] == x
  {
    if flows != [] {
      var last := flows[|flows| - 1];
      assert flows == flows[..|flows| - 1] + [last];
      ResultsForAre(flows[..|flows| - 1], byId, c, x);
      if last.id in byId {
        CopiesAre(last.cases, c, byId[last.id]);
      }
    }
  }

  // ----- UI results by case -----------------------------------------------------------------

  function Mapped(mappings: seq<(string, seq<string>)>, scenario: string): seq<string> {
    if mappings == [] then []
    else if mappings[|mappings| - 1].0 == scenario then mappings[|mappings| - 1].1
    else Mapped(mappings[..|mappings| - 1], scenario)
  }

  /** The cases a scenario answers for: the mapped ones, or the one of its own name. */
  function CasesOf(mappings: seq<(string, seq<string>)>, scenario: string): seq<string> {
    if Mapped(mappings, scenario) == [] then [scenario] else Mapped(mappings, scenario)
  }

  /** Place `k` of scenario `i` claims case `c`. */
  predicate Claims(items: seq<ScenarioResult>, mappings: seq<(string, seq<string>)>, i: int, k: int, c: string) {
    && 0 <= i < |items| && 0 <= k < |CasesOf(mappings, items[i].scenario)|
    && CasesOf(mappings, items[i].scenario)[k] == c
  }

  ghost predicate ClaimedOnce(items: seq<ScenarioResult>, mappings: seq<(string, seq<string>)>) {
    forall i, k, j, l, c :: Claims(items, mappings, i, k, c) && Claims(items, mappings, j, l, c) ==> i == j && k == l
  }

  predicate Before(j: int, l: int, i: int, k: int) {
    j < i || (j == i && l < k)
  }

  ghost predicate ClaimedBefore(items: seq<ScenarioResult>, mappings: seq<(string, seq<string>)>, i: int, k: int, c: string) {
    exists j, l :: Claims(items, mappings, j, l, c) && Before(j, l, i, k)
  }

  ghost predicate HoldsClaims(m: map<string, ScenarioResult>, items: seq<ScenarioResult>,
                              mappings: seq<(string, seq<string>)>, i: int, k: int)
  {
    forall j, l, c :: Claims(items, mappings, j, l, c) && Before(j, l, i, k) ==> c in m && m[c] == items[j]
  }

  /** `m` holds exactly the claims before place `k` of scenario `i`, and they do not clash. */
  ghost predicate Entered(m: map<string, ScenarioResult>, items: seq<ScenarioResult>,
                          mappings: seq<(string, seq<string>)>, i: nat, k: nat)
  {
    && HoldsClaims(m, items, mappings, i, k)
    && (forall c :: c in m ==> ClaimedBefore(items, mappings, i, k, c))
    && NoClashBefore(items, mappings, i, k)
  }

  ghost predicate NoClashBefore(items: seq<ScenarioResult>, mappings: seq<(string, seq<string>)>, i: int, k: int) {
    forall j, l, p, q, c ::
      (Claims(items, mappings, j, l, c) && Before(j, l, i, k) && Claims(items, mappings, p, q, c) && Before(p, q, i, k)) ==>
        j == p && l == q
  }

  lemma OneMorePlace(items: seq<ScenarioResult>, mappings: seq<(string, seq<string>)>, i: nat, k: nat, j: int, l: int, c: string)
    requires Claims(items, mappings, j, l, c)
    ensures Before(j, l, i, k + 1) <==> Before(j, l, i, k) || (j == i && l == k)
  {
  }

  lemma ClashStep(m: map<string, ScenarioResult>, items: seq<ScenarioResult>,
                  mappings: seq<(string, seq<string>)>, i: nat, k: nat, c: string)
    requires NoClashBefore(items, mappings, i, k) && HoldsClaims(m, items, mappings, i, k)
    requires Claims(items, mappings, i, k, c) && c !in m
    ensures NoClashBefore(items, mappings, i, k + 1)
  {
    forall j, l, p, q, d | Claims(items, mappings, j, l, d) && Before(j, l, i, k + 1)
                           && Claims(items, mappings, p, q, d) && Before(p, q, i, k + 1)
      ensures j == p && l == q
    {
      OneMorePlace(items, mappings, i, k, j, l, d);
      OneMorePlace(items, mappings, i, k, p, q, d);
      assert Claims(items, mappings, i, k, d) ==> d == c;
    }
  }

  lemma EnteredStep(m: map<string, ScenarioResult>, items: seq<ScenarioResult>,
                    mappings: seq<(string, seq<string>)>, i: nat, k: nat, c: string)
    requires Entered(m, items, mappings, i, k) && Claims(items, mappings, i, k, c) && c !in m
    ensures Entered(m[c := items[i]], items, mappings, i, k + 1)
  {
    var m' := m[c := items[i]];
    forall d | d in m' ensures ClaimedBefore(items, mappings, i, k + 1, d) {
      if d == c {
        assert Before(i, k, i, k + 1);
      } else {
        var j, l :| Claims(items, mappings, j, l, d) && Before(j, l, i, k);
        assert Before(j, l, i, k + 1);
      }
    }
    forall j, l, d | Claims(items, mappings, j, l, d) && Before(j, l, i, k + 1) ensures d in m' && m'[d] == items[j] {
      OneMorePlace(items, mappings, i, k, j, l, d);
      assert Claims(items, mappings, i, k, d) ==> d == c;
    }
    ClashStep(m, items, mappings, i, k, c);
  }

  lemma EnteredNext(m: map<string, ScenarioResult>, items: seq<ScenarioResult>,
                    mappings: seq<(string, seq<string>)>, i: nat)
    requires i < |items| && Entered(m, items, mappings, i, |CasesOf(mappings, items[i].scenario)|)
    ensures Entered(m, items, mappings, i + 1, 0)
  {
    var n := |CasesOf(mappings, items[i].scenario)|;
    forall j, l, c | Claims(items, mappings, j, l, c) ensures Before(j, l, i + 1, 0) <==> Before(j, l, i, n) {
    }
    forall c | c in m ensures ClaimedBefore(items, mappings, i + 1, 0, c) {
      var j, l :| Claims(items, mappings, j, l, c) && Before(j, l, i, n);
      assert Before(j, l, i + 1, 0);
    }
  }

  method UiResultsByCase(items: seq<ScenarioResult>, mappings: seq<(string, seq<string>)>)
    returns (r: Result<map<string, ScenarioResult>, string>)
    ensures r.Ok? <==> ClaimedOnce(items, mappings)
    ensures r.Ok? ==> Entered(r.value, items, mappings, |items|, 0)
  {
    var collected: map<string, ScenarioResult> := map[];
    for i := 0 to |items|
      invariant Entered(collected, items, mappings, i, 0)
    {
      var refs := CasesOf(mappings, items[i].scenario);
      for k := 0 to |refs|
        invariant Entered(collected, items, mappings, i, k)
      {
        var c := refs[k];
        assert Claims(items, mappings, i, k, c);
        if c in collected {
          assert ClaimedBefore(items, mappings, i, k, c) && !Before(i, k, i, k);
          return Err("several scenarios map to the same case");
        }
        EnteredStep(collected, items, mappings, i, k, c);
        collected := collected[c := items[i]];
      }
      EnteredNext(collected, items, mappings, i);
    }
    assert forall j, l, c :: Claims(items, mappings, j, l, c) ==> Before(j, l, |items|, 0);
    return Ok(collected);
  }

  // ----- one case ---------------------------------------------------------------------------------

  predicate NeedsData(flows: seq<Flow>, c: string) {
    exists f :: f in flows && Lists(f, c)
  }

  /** None when the case needs no data. */
  function DataStatus(needed: bool, results: seq<FlowResult>): Option<RunStatus> {
    if !needed then None
    else if results == [] then Some(Blocked)
    else if exists r :: r in results && r.status == Failed then Some(Failed)
    else if exists r :: r in results && r.status != Passed then Some(Blocked)
    else Some(Passed)
  }

  function Known(s: RunStatus): RunStatus {
    if s == Passed || s == Failed || s == Blocked then s else Blocked
  }

  function RunOf(t: TestCase, edit: Option<EditResult>, scenario: Option<ScenarioResult>): RunStatus {
    if t.ui then
      if scenario.None? then Blocked else Known(scenario.value.status)
    else if edit.None? || !edit.value.committed then Blocked
    else if edit.value.testRefs == [] then Blocked
    else if edit.value.testsPassed then Passed
    else Failed
  }

  function CaseStatus(t: TestCase, edit: Option<EditResult>, results: seq<FlowResult>,
                      scenario: Option<ScenarioResult>, needed: bool): RunStatus
  {
    var data := DataStatus(needed, results);
    if data == Some(Failed) || data == Some(Blocked) then data.value else RunOf(t, edit, scenario)
  }

  function UiStatus(cases: seq<TestCase>, ui: Option<UiResult>): Option<RunStatus> {
    if !(exists t :: t in cases && t.ui) then None
    else if ui.None? then Some(Blocked)
    else Some(Known(ui.value.status))
  }

  // ----- rule coverage --------------------------------------------------------------------------

  const TOLERANCE: real := 0.000000001

  function CoveredRules(rules: seq<Rule>): nat {
    if rules == [] then 0
    else CoveredRules(rules[..|rules| - 1]) + if rules[|rules| - 1].covered then 1 else 0
  }

  predicate AllCovered(rules: seq<Rule>) {
    forall i :: 0 <= i < |rules| ==> rules[i].covered
  }

  lemma {:induction false} CoveredRulesCount(rules: seq<Rule>)
    ensures CoveredRules(rules) <= |rules|
    ensures CoveredRules(rules) == |rules| <==> AllCovered(rules)
  {
    if rules != [] {
      var front := rules[..|rules| - 1];
      CoveredRulesCount(front);
      assert AllCovered(rules) <==> AllCovered(front) && rules[|rules| - 1].covered by {
        assert forall i :: 0 <= i < |front| ==> rules[i] == front[i];
      }
    }
  }

  function RulePercent(r: RuleReport): real {
    if r.rules == [] then 0.0 else CoveredRules(r.rules) as real * 100.0 / |r.rules| as real
  }

  function Distance(x: real, y: real): real {
    if x >= y then x - y else y - x
  }

  predicate Inconsistent(r: RuleReport) {
    || r.ruleCount != |r.rules|
    || r.coveredCount != CoveredRules(r.rules)
    || Distance(r.percent, RulePercent(r)) > TOLERANCE
    || r.status != if r.rules != [] && CoveredRules(r.rules) == |r.rules| then Passed else Failed
  }

  lemma RatioReaches(part: nat, whole: nat)
    requires 0 < whole && part <= whole
    ensures part as real * 100.0 / whole as real >= 100.0 <==> part == whole
  {
    var w, p := whole as real, part as real;
    assert p * 100.0 / w == (p / w) * 100.0;
    if part < whole {
      assert p < w;
      assert p / w < 1.0;
    }
  }

  // A full percentage means every rule, and there is at least one.
  lemma FullPercentMeansAllCovered(r: RuleReport)
    ensures RulePercent(r) >= 100.0 <==> r.rules != [] && AllCovered(r.rules)
    ensures RulePercent(r) >= 100.0 ==> RulePercent(r) == 100.0
  {
    CoveredRulesCount(r.rules);
    if r.rules != [] {
      RatioReaches(CoveredRules(r.rules), |r.rules|);
    }
  }

  predicate RulesSatisfied(r: RuleReport) {
    && r.rules != [] && AllCovered(r.rules)
    && r.ruleCount == |r.rules| && r.coveredCount == |r.rules|
    && 100.0 - TOLERANCE <= r.percent <= 100.0 + TOLERANCE
    && r.status == Passed
  }

  lemma RulesSatisfiedIff(r: RuleReport)
    ensures RulePercent(r) >= 100.0 && !Inconsistent(r) <==> RulesSatisfied(r)
  {
    FullPercentMeansAllCovered(r);
    CoveredRulesCount(r.rules);
  }

  // ----- what is still open ------------------------------------------------------------------------

  datatype Item =
    | Text(text: string)
    | EditMissing | NotCommitted | NotInScope | NotVerified
    | OutOfScopeFile(path: string)
    | WorkspaceChanged
    | LinesMissing
    | DataMissing | CleanupFailed
    | UncoveredRule(rule: string) | RulesInconsistent | NoCoveredRule
    | CaseNotPassed(case_: string, status: RunStatus)
    | UiBlocked
    | UnresolvedImpact(item: string)
    | UiOutOfScopeFile(path: string)

  function Texts(s: seq<string>): set<Item> {
    set t | t in s :: Text(t)
  }

  predicate EditAccepted(v: Input) {
    && v.edit.Some?
    && (v.edit.value.status == InScope || (v.verificationOnly && v.edit.value.status == NoChanges))
  }

  function EditItems(v: Input): set<Item> {
    if v.edit.None? then {EditMissing}
    else
      (if v.edit.value.committed then {} else {NotCommitted})
      + (if EditAccepted(v) then {} else {NotInScope})
      + (if v.edit.value.verified then {} else {NotVerified})
      + (set p | p in v.edit.value.outOfScope :: OutOfScopeFile(p))
  }

  function WorkspaceItems(v: Input): set<Item> {
    if v.workspaceCurrent then {}
    else if v.workspaceReason.Some? && v.workspaceReason.value != [] then {Text(v.workspaceReason.value)}
    else {WorkspaceChanged}
  }

  function LineItems(v: Input): set<Item> {
    if v.lines.None? then {LinesMissing}
    else if v.lines.value.status.Missing? || v.lines.value.status.Failed? then Texts(v.lines.value.reasons)
    else {}
  }

  function DataItems(v: Input): set<Item> {
    (if v.planReady && v.flows != [] && v.data.None? then {DataMissing} else {})
    + (if v.data.Some? && (v.data.value.cleanup == Failed || v.data.value.cleanup == Interrupted) then {CleanupFailed} else {})
  }

  /** A text that reads like the item of an uncovered rule. */
  predicate ReadsAsUncovered(i: Item, prefix: string) {
    i.UncoveredRule? || (i.Text? && prefix <= i.text)
  }

  function RuleItems(v: Input, before: set<Item>, prefix: string): set<Item> {
    var uncovered := set i | 0 <= i < |v.rules.rules| && !v.rules.rules[i].covered :: UncoveredRule(v.rules.rules[i].id);
    uncovered
    + (if Inconsistent(v.rules) then {RulesInconsistent} else {})
    + (if RulePercent(v.rules) < 100.0 && !(exists i :: i in before + uncovered && ReadsAsUncovered(i, prefix))
       then {NoCoveredRule} else {})
  }

  function CaseItems(cases: seq<TestCase>, results: seq<RunStatus>): set<Item>
    requires |results| == |cases|
  {
    set i | 0 <= i < |cases| && results[i] != Passed :: CaseNotPassed(cases[i].id, results[i])
  }

  function UiItems(v: Input, uiStatus: Option<RunStatus>): set<Item> {
    (if uiStatus == Some(Blocked) then {UiBlocked} else {})
    + if v.ui.None? then {} else
      (set t | t in v.ui.value.unresolvedItems :: UnresolvedImpact(t))
      + (set p | p in v.ui.value.outOfScope :: UiOutOfScopeFile(p))
      + Texts(v.ui.value.failureReasons)
  }

  /** `_unresolved_items`; `prefix` is how the item of an uncovered rule begins. */
  function Unresolved(v: Input, results: seq<RunStatus>, uiStatus: Option<RunStatus>, prefix: string): set<Item>
    requires |results| == |v.cases|
  {
    var before := (if v.ready then {} else Texts(v.blockingReasons))
                  + EditItems(v) + WorkspaceItems(v) + LineItems(v) + DataItems(v);
    before + RuleItems(v, before, prefix) + CaseItems(v.cases, results) + UiItems(v, uiStatus)
  }

  // ----- the verdict --------------------------------------------------------------------------------

  datatype Verdict = ClosurePassed | ClosureFailed | ClosureBlocked | ClosureReanalysis

  predicate LinesOpen(v: Input) {
    v.lines.None? || v.lines.value.status.Missing? || v.lines.value.status.Failed?
  }

  predicate NeedsReanalysis(v: Input) {
    || (v.edit.Some? && (v.edit.value.status == OutOfScope || v.edit.value.outOfScope != []))
    || (v.ui.Some? && (v.ui.value.status == ReanalysisRequired || v.ui.value.unresolvedItems != [] || v.ui.value.outOfScope != []))
  }

  function ClosureStatus(v: Input, results: seq<RunStatus>, uiStatus: Option<RunStatus>, unresolved: set<Item>): Verdict {
    if NeedsReanalysis(v) then ClosureReanalysis
    else if || !v.ready || v.edit.None? || !v.workspaceCurrent
            || !v.edit.value.committed || !v.edit.value.verified
            || LinesOpen(v)
            || RulePercent(v.rules) < 100.0 || Inconsistent(v.rules)
            || (v.data.None? && v.flows != [])
            || Blocked in results
            || uiStatus == Some(Blocked) then ClosureBlocked
    else if || !EditAccepted(v)
            || !v.edit.value.testsPassed
            || (v.data.Some? && v.data.value.status != Passed)
            || (v.data.Some? && v.data.value.cleanup == Failed)
            || Failed in results
            || uiStatus == Some(Failed) then ClosureFailed
    else if unresolved == {} then ClosurePassed
    else ClosureBlocked
  }

  /** What a passed closure vouches for, case by case and in terms of the evidence alone. */
  ghost predicate CasePasses(v: Input, t: TestCase) {
    && (if t.ui then UiCasePasses(v, t.id) else CommandTestsPass(v))
    && (NeedsData(v.flows, t.id) ==> DataPasses(v, t.id))
  }

  predicate CommandTestsPass(v: Input) {
    v.edit.Some? && v.edit.value.committed && v.edit.value.testRefs != [] && v.edit.value.testsPassed
  }

  ghost predicate UiCasePasses(v: Input, c: string) {
    v.ui.Some? && exists i, k :: Claims(v.ui.value.scenarios, v.mappings, i, k, c) && v.ui.value.scenarios[i].status == Passed
  }

  /** Some flow that lists the case has a result, and every result of such a flow passed. */
  ghost predicate DataPasses(v: Input, c: string) {
    && v.data.Some?
    && (exists f :: f in v.flows && Lists(f, c) && f.id in ById(v.data.value.flows))
    && (forall f :: f in v.flows && Lists(f, c) && f.id in ById(v.data.value.flows) ==>
          ById(v.data.value.flows)[f.id].status == Passed)
  }

  ghost predicate Passing(v: Input) {
    && v.ready
    && EditAccepted(v) && v.edit.value.committed && v.edit.value.verified
    && v.edit.value.outOfScope == [] && v.edit.value.testsPassed
    && v.workspaceCurrent
    && !LinesOpen(v)
    && RulesSatisfied(v.rules)
    && (v.flows != [] ==> v.data.Some?)
    && (v.data.Some? ==> v.data.value.status == Passed && v.data.value.cleanup != Failed && v.data.value.cleanup != Interrupted)
    && (forall t :: t in v.cases ==> CasePasses(v, t))
    && UiPassing(v)
  }

  predicate UiPassing(v: Input) {
    && ((exists t :: t in v.cases && t.ui) ==> v.ui.Some? && v.ui.value.status == Passed)
    && (v.ui.Some? ==>
          v.ui.value.status != ReanalysisRequired && v.ui.value.unresolvedItems == []
          && v.ui.value.outOfScope == [] && v.ui.value.failureReasons == [])
  }

  // ----- the whole evaluation ---------------------------------------------------------------------

  function ScenarioAt(m: map<string, ScenarioResult>, c: string): Option<ScenarioResult> {
    if c in m then Some(m[c]) else None
  }

  ghost predicate UiIndexed(v: Input, m: map<string, ScenarioResult>) {
    if v.ui.None? then m == map[] else Entered(m, v.ui.value.scenarios, v.mappings, |v.ui.value.scenarios|, 0)
  }

  function StatusOf(v: Input, m: map<string, ScenarioResult>, t: TestCase): RunStatus {
    CaseStatus(t, v.edit, FlowsOf(v.flows, v.data, t.id), ScenarioAt(m, t.id), NeedsData(v.flows, t.id))
  }

  lemma DataStatusPassed(v: Input, c: string)
    requires NeedsData(v.flows, c)
    ensures DataStatus(true, FlowsOf(v.flows, v.data, c)) == Some(Passed) <==> DataPasses(v, c)
  {
    var results := FlowsOf(v.flows, v.data, c);
    if v.data.Some? {
      var byId := ById(v.data.value.flows);
      forall x ensures x in results <==> exists f :: f in v.flows && Lists(f, c) && f.id in byId && byId[f.id] == x {
        ResultsForAre(v.flows, byId, c, x);
      }
      if results != [] {
        assert results[0] in results;
      }
      if DataPasses(v, c) {
        var f :| f in v.flows && Lists(f, c) && f.id in byId;
        assert byId[f.id] in results;
      }
      if DataStatus(true, results) == Some(Passed) {
        forall f | f in v.flows && Lists(f, c) && f.id in byId ensures byId[f.id].status == Passed {
          assert byId[f.id] in results;
        }
      }
    }
  }

  lemma UiCasePassedIff(v: Input, m: map<string, ScenarioResult>, c: string)
    requires UiIndexed(v, m)
    ensures c in m && m[c].status == Passed <==> UiCasePasses(v, c)
  {
    if v.ui.Some? {
      var items := v.ui.value.scenarios;
      if c in m {
        assert ClaimedBefore(items, v.mappings, |items|, 0, c);
      }
      assert forall j, l :: Claims(items, v.mappings, j, l, c) ==> Before(j, l, |items|, 0);
    }
  }

  // A case's status is passed exactly when its evidence says so.
  lemma CasePassedIff(v: Input, m: map<string, ScenarioResult>, t: TestCase)
    requires UiIndexed(v, m)
    ensures StatusOf(v, m, t) == Passed <==> CasePasses(v, t)
    ensures StatusOf(v, m, t) == Passed || StatusOf(v, m, t) == Failed || StatusOf(v, m, t) == Blocked
  {
    UiCasePassedIff(v, m, t.id);
    if NeedsData(v.flows, t.id) {
      DataStatusPassed(v, t.id);
    }
  }

  ghost predicate Statuses(v: Input, m: map<string, ScenarioResult>, results: seq<RunStatus>) {
    |results| == |v.cases| && forall i :: 0 <= i < |v.cases| ==> results[i] == StatusOf(v, m, v.cases[i])
  }

  /** Everything but the items that no earlier guard of the verdict already covers. */
  predicate NothingLate(v: Input) {
    && (v.data.Some? ==> v.data.value.cleanup != Interrupted)
    && (v.ui.Some? ==> v.ui.value.failureReasons == [])
  }

  lemma CasesAllPass(v: Input, m: map<string, ScenarioResult>, results: seq<RunStatus>)
    requires UiIndexed(v, m) && Statuses(v, m, results)
    ensures Blocked !in results && Failed !in results <==> forall t :: t in v.cases ==> CasePasses(v, t)
    ensures CaseItems(v.cases, results) == {} <==> Blocked !in results && Failed !in results
  {
    forall i | 0 <= i < |v.cases|
      ensures results[i] == Passed <==> CasePasses(v, v.cases[i])
      ensures results[i] == Passed || results[i] == Failed || results[i] == Blocked
    {
      CasePassedIff(v, m, v.cases[i]);
    }
    if i :| 0 <= i < |v.cases| && results[i] != Passed {
      assert CaseNotPassed(v.cases[i].id, results[i]) in CaseItems(v.cases, results);
      assert results[i] in results && v.cases[i] in v.cases;
    }
    if CaseItems(v.cases, results) != {} {
      var x :| x in CaseItems(v.cases, results);
    }
  }

  /** The guards of the verdict before the last one, all passed. */
  predicate EarlyGuardsPass(v: Input, results: seq<RunStatus>, uiStatus: Option<RunStatus>) {
    && !NeedsReanalysis(v)
    && v.ready && EditAccepted(v) && v.workspaceCurrent && v.edit.value.committed && v.edit.value.verified
    && v.edit.value.testsPassed && !LinesOpen(v)
    && RulePercent(v.rules) >= 100.0 && !Inconsistent(v.rules)
    && (v.data.None? ==> v.flows == [])
    && (v.data.Some? ==> v.data.value.status == Passed && v.data.value.cleanup != Failed)
    && Blocked !in results && Failed !in results
    && uiStatus != Some(Blocked) && uiStatus != Some(Failed)
  }

  lemma RuleItemsEmpty(v: Input, before: set<Item>, prefix: string)
    requires RulePercent(v.rules) >= 100.0 && !Inconsistent(v.rules)
    ensures RuleItems(v, before, prefix) == {}
  {
    FullPercentMeansAllCovered(v.rules);
  }

  // Past the early guards, only an interrupted cleanup or a UI failure reason is left to object.
  lemma LateObjections(v: Input, m: map<string, ScenarioResult>, results: seq<RunStatus>, uiStatus: Option<RunStatus>, prefix: string)
    requires UiIndexed(v, m) && Statuses(v, m, results) && uiStatus == UiStatus(v.cases, v.ui)
    requires EarlyGuardsPass(v, results, uiStatus)
    ensures Unresolved(v, results, uiStatus, prefix) == {} <==> NothingLate(v)
  {
    CasesAllPass(v, m, results);
    var before := (if v.ready then {} else Texts(v.blockingReasons))
                  + EditItems(v) + WorkspaceItems(v) + LineItems(v) + DataItems(v);
    RuleItemsEmpty(v, before, prefix);
    assert EditItems(v) == {} && WorkspaceItems(v) == {} && LineItems(v) == {};
    if v.ui.Some? && v.ui.value.failureReasons != [] {
      assert Text(v.ui.value.failureReasons[0]) in UiItems(v, uiStatus);
    }
    if v.data.Some? && v.data.value.cleanup == Interrupted {
      assert CleanupFailed in DataItems(v);
    }
    if NothingLate(v) {
      assert UiItems(v, uiStatus) == {};
      assert DataItems(v) == {};
    }
  }

  lemma PassingSplits(v: Input, m: map<string, ScenarioResult>, results: seq<RunStatus>, uiStatus: Option<RunStatus>)
    requires UiIndexed(v, m) && Statuses(v, m, results) && uiStatus == UiStatus(v.cases, v.ui)
    ensures Passing(v) <==> EarlyGuardsPass(v, results, uiStatus) && NothingLate(v)
  {
    RulesSatisfiedIff(v.rules);
    CasesAllPass(v, m, results);
  }

  lemma VerdictPassedIff(v: Input, m: map<string, ScenarioResult>, results: seq<RunStatus>, uiStatus: Option<RunStatus>, prefix: string)
    requires UiIndexed(v, m) && Statuses(v, m, results) && uiStatus == UiStatus(v.cases, v.ui)
    ensures ClosureStatus(v, results, uiStatus, Unresolved(v, results, uiStatus, prefix)) == ClosurePassed <==> Passing(v)
  {
    PassingSplits(v, m, results, uiStatus);
    if EarlyGuardsPass(v, results, uiStatus) {
      LateObjections(v, m, results, uiStatus, prefix);
    }
  }

  datatype Closure = Closure(verdict: Verdict, results: seq<RunStatus>, unresolved: set<Item>)

  method Evaluate(v: Input, prefix: string) returns (r: Result<Closure, string>)
    ensures r.Ok? <==> (v.ui.Some? ==> ClaimedOnce(v.ui.value.scenarios, v.mappings))
    ensures r.Ok? ==> (r.value.verdict == ClosurePassed <==> Passing(v))
    ensures r.Ok? ==> (r.value.verdict == ClosureReanalysis <==> NeedsReanalysis(v))
    ensures r.Ok? ==> |r.value.results| == |v.cases|
                      && forall i :: 0 <= i < |v.cases| ==> (r.value.results[i] == Passed <==> CasePasses(v, v.cases[i]))
    ensures r.Ok? ==> (r.value.unresolved == {} <==> NothingOpen(v, r.value.results, UiStatus(v.cases, v.ui)))
    ensures r.Ok? ==> (r.value.verdict == ClosureFailed <==>
                         !NeedsReanalysis(v) && EvidenceComplete(v, r.value.results, UiStatus(v.cases, v.ui))
                         && WentWrong(v, r.value.results, UiStatus(v.cases, v.ui)))
  {
    var flowsByCase := FlowResultsByCase(v.flows, v.data);
    var uiByCase: map<string, ScenarioResult> := map[];
    if v.ui.Some? {
      var indexed := UiResultsByCase(v.ui.value.scenarios, v.mappings);
      if indexed.Err? {
        return Err(indexed.error);
      }
      uiByCase := indexed.value;
    }
    var results := [];
    for i := 0 to |v.cases|
      invariant |results| == i && forall j :: 0 <= j < i ==> results[j] == StatusOf(v, uiByCase, v.cases[j])
    {
      var t := v.cases[i];
      results := results + [CaseStatus(t, v.edit, At(flowsByCase, t.id), ScenarioAt(uiByCase, t.id), NeedsData(v.flows, t.id))];
    }
    var uiStatus := UiStatus(v.cases, v.ui);
    var unresolved := Unresolved(v, results, uiStatus, prefix);
    var verdict := ClosureStatus(v, results, uiStatus, unresolved);
    VerdictPassedIff(v, uiByCase, results, uiStatus, prefix);
    FailedIff(v, results, uiStatus, unresolved);
    UnresolvedEmptyIff(v, results, uiStatus, prefix);
    forall i | 0 <= i < |v.cases| ensures results[i] == Passed <==> CasePasses(v, v.cases[i]) {
      CasePassedIff(v, uiByCase, v.cases[i]);
    }
    return Ok(Closure(verdict, results, unresolved));
  }

  /** Nothing a verdict rests on is missing, stale or unverified. */
  predicate EvidenceComplete(v: Input, results: seq<RunStatus>, uiStatus: Option<RunStatus>) {
    && v.ready && v.workspaceCurrent && v.edit.Some? && v.edit.value.committed && v.edit.value.verified
    && !LinesOpen(v) && RulesSatisfied(v.rules) && (v.flows != [] ==> v.data.Some?)
    && Blocked !in results && uiStatus != Some(Blocked)
  }

  /** Something that ran went wrong, or the edit is not one to accept. */
  predicate WentWrong(v: Input, results: seq<RunStatus>, uiStatus: Option<RunStatus>) {
    || !EditAccepted(v) || !v.edit.value.testsPassed || Failed in results || uiStatus == Some(Failed)
    || (v.data.Some? && (v.data.value.status != Passed || v.data.value.cleanup == Failed))
  }

  // A closure fails exactly when no evidence is missing and something that ran went wrong.
  lemma FailedIff(v: Input, results: seq<RunStatus>, uiStatus: Option<RunStatus>, unresolved: set<Item>)
    ensures ClosureStatus(v, results, uiStatus, unresolved) == ClosureFailed <==>
              !NeedsReanalysis(v) && EvidenceComplete(v, results, uiStatus) && WentWrong(v, results, uiStatus)
  {
    RulesSatisfiedIff(v.rules);
  }

  // ----- refusals that name no reason -----------------------------------------------------------

  /** No part of the evidence leaves an item. */
  predicate NothingOpen(v: Input, results: seq<RunStatus>, uiStatus: Option<RunStatus>) {
    && (!v.ready ==> v.blockingReasons == [])
    && EditAccepted(v) && v.edit.value.committed && v.edit.value.verified && v.edit.value.outOfScope == []
    && v.workspaceCurrent
    && v.lines.Some? && (LinesOpen(v) ==> v.lines.value.reasons == [])
    && (v.planReady && v.flows != [] ==> v.data.Some?)
    && (v.data.Some? ==> v.data.value.cleanup != Failed && v.data.value.cleanup != Interrupted)
    && RulesSatisfied(v.rules)
    && (forall r :: r in results ==> r == Passed)
    && uiStatus != Some(Blocked)
    && (v.ui.Some? ==> v.ui.value.unresolvedItems == [] && v.ui.value.outOfScope == [] && v.ui.value.failureReasons == [])
  }

  lemma NoTexts(s: seq<string>)
    ensures Texts(s) == {} <==> s == []
  {
    if s != [] {
      assert Text(s[0]) in Texts(s);
    }
  }

  lemma EditItemsEmpty(v: Input)
    ensures EditItems(v) == {} <==>
              EditAccepted(v) && v.edit.value.committed && v.edit.value.verified && v.edit.value.outOfScope == []
  {
    if v.edit.Some? && v.edit.value.outOfScope != [] {
      assert OutOfScopeFile(v.edit.value.outOfScope[0]) in EditItems(v);
    }
  }

  lemma RuleItemsEmptyIff(v: Input, before: set<Item>, prefix: string)
    ensures before + RuleItems(v, before, prefix) == {} <==> before == {} && RulesSatisfied(v.rules)
  {
    RulesSatisfiedIff(v.rules);
    FullPercentMeansAllCovered(v.rules);
    var rules := v.rules.rules;
    if i :| 0 <= i < |rules| && !rules[i].covered {
      assert UncoveredRule(rules[i].id) in RuleItems(v, before, prefix);
    }
  }

  lemma CaseItemsEmpty(cases: seq<TestCase>, results: seq<RunStatus>)
    requires |results| == |cases|
    ensures CaseItems(cases, results) == {} <==> forall r :: r in results ==> r == Passed
  {
    if i :| 0 <= i < |cases| && results[i] != Passed {
      assert CaseNotPassed(cases[i].id, results[i]) in CaseItems(cases, results);
      assert results[i] in results;
    }
  }

  lemma UiItemsEmpty(v: Input, uiStatus: Option<RunStatus>)
    ensures UiItems(v, uiStatus) == {} <==>
              && uiStatus != Some(Blocked)
              && (v.ui.Some? ==> v.ui.value.unresolvedItems == [] && v.ui.value.outOfScope == [] && v.ui.value.failureReasons == [])
  {
    if v.ui.Some? {
      NoTexts(v.ui.value.failureReasons);
      if v.ui.value.unresolvedItems != [] {
        assert UnresolvedImpact(v.ui.value.unresolvedItems[0]) in UiItems(v, uiStatus);
      }
      if v.ui.value.outOfScope != [] {
        assert UiOutOfScopeFile(v.ui.value.outOfScope[0]) in UiItems(v, uiStatus);
      }
    }
  }

  // The list of unresolved items is empty exactly when every part of the evidence is settled.
  lemma UnresolvedEmptyIff(v: Input, results: seq<RunStatus>, uiStatus: Option<RunStatus>, prefix: string)
    requires |results| == |v.cases|
    ensures Unresolved(v, results, uiStatus, prefix) == {} <==> NothingOpen(v, results, uiStatus)
  {
    var before := (if v.ready then {} else Texts(v.blockingReasons))
                  + EditItems(v) + WorkspaceItems(v) + LineItems(v) + DataItems(v);
    NoTexts(v.blockingReasons);
    if v.lines.Some? {
      NoTexts(v.lines.value.reasons);
    }
    EditItemsEmpty(v);
    RuleItemsEmptyIff(v, before, prefix);
    CaseItemsEmpty(v.cases, results);
    UiItemsEmpty(v, uiStatus);
    UnionEmpty(before + RuleItems(v, before, prefix), CaseItems(v.cases, results), UiItems(v, uiStatus));
  }

  lemma UnionEmpty(a: set<Item>, b: set<Item>, c: set<Item>)
    ensures a + b + c == {} <==> a == {} && b == {} && c == {}
  {
  }

  /** What the artifact schemas demand: a refusal upstream comes with its reasons. */
  predicate Received(v: Input) {
    && (!v.ready ==> v.blockingReasons != [])
    && (v.lines.Some? && LinesOpen(v) ==> v.lines.value.reasons != [])
  }

  // A closure that is refused without naming anything unresolved is one of these five: flows without
  // an execution under a plan that is not ready, a command suite that failed, a data execution that did
  // not pass, a UI result that asks for reanalysis, or one that failed.
  lemma SilentRefusalIff(v: Input, results: seq<RunStatus>, uiStatus: Option<RunStatus>, prefix: string)
    requires |results| == |v.cases| && Received(v)
    ensures var unresolved := Unresolved(v, results, uiStatus, prefix);
            unresolved == {} && ClosureStatus(v, results, uiStatus, unresolved) != ClosurePassed <==>
              NothingOpen(v, results, uiStatus)
              && (|| (v.data.None? && v.flows != [] && !v.planReady)
                  || !v.edit.value.testsPassed
                  || (v.data.Some? && v.data.value.status != Passed)
                  || (v.ui.Some? && v.ui.value.status == ReanalysisRequired)
                  || uiStatus == Some(Failed))
  {
    UnresolvedEmptyIff(v, results, uiStatus, prefix);
    RulesSatisfiedIff(v.rules);
  }

  /** A plan of one UI case that passes with its data, and an edit whose commands failed. */
  function SuiteFailed(): Input {
    Input(true, [], [TestCase("t", true)], [Flow("f", ["t"])], true, RuleReport([Rule("r", true)], 1, 1, 100.0, Passed),
          Some(EditResult(InScope, true, true, [], ["run"], false, ["a"])),
          Some(DataResult(Passed, Passed, [FlowResult("f", Passed)])),
          Some(UiResult(Passed, [ScenarioResult("t", Passed)], [], [], [])),
          Some(LineCoverage(ChangeCoverage.Passed, [])), [], false, true, None)
  }

  lemma SuiteFailedCase(t: TestCase, m: map<string, ScenarioResult>)
    requires t == TestCase("t", true) && m == map["t" := ScenarioResult("t", Passed)]
    ensures CasePasses(SuiteFailed(), t) && UiIndexed(SuiteFailed(), m)
  {
    var v := SuiteFailed();
    var items, flows := v.ui.value.scenarios, v.data.value.flows;
    forall i, k, c ensures Claims(items, [], i, k, c) <==> i == 0 && k == 0 && c == "t" {
      OwnScenario(items, i, k, c);
    }
    assert Claims(items, [], 0, 0, "t") && Before(0, 0, 1, 0);
    assert ClaimedBefore(items, [], 1, 0, "t");
    assert flows[..0] == [] && ById(flows) == map["f" := FlowResult("f", Passed)];
    assert v.flows[0] in v.flows && Lists(v.flows[0], "t");
    assert UiCasePasses(v, "t") && DataPasses(v, "t");
  }

  // It does happen: every case passes, nothing is unresolved, and the closure has failed.
  lemma SilentRefusal(prefix: string) returns (v: Input, m: map<string, ScenarioResult>)
    ensures Received(v) && v.cases != [] && (forall t :: t in v.cases ==> t.ui && CasePasses(v, t))
    ensures UiIndexed(v, m) && Statuses(v, m, [Passed])
    ensures Unresolved(v, [Passed], UiStatus(v.cases, v.ui), prefix) == {}
    ensures ClosureStatus(v, [Passed], UiStatus(v.cases, v.ui), {}) == ClosureFailed
  {
    var t := TestCase("t", true);
    v, m := SuiteFailed(), map["t" := ScenarioResult("t", Passed)];
    SuiteFailedCase(t, m);
    CasePassedIff(v, m, t);
    assert v.cases[0] == t && t in v.cases;
    RulesSatisfiedLiteral(v.rules);
    RulesSatisfiedIff(v.rules);
    UnresolvedEmptyIff(v, [Passed], UiStatus(v.cases, v.ui), prefix);
  }

  // ----- flows without a result -----------------------------------------------------------------

  /** The flow prepares data for a planned case. */
  predicate Serves(cases: seq<TestCase>, f: Flow) {
    exists t :: t in cases && Lists(f, t.id)
  }

  /** The evaluation succeeds, and passes. */
  ghost predicate Closes(v: Input) {
    Passing(v) && (v.ui.Some? ==> ClaimedOnce(v.ui.value.scenarios, v.mappings))
  }

  /** Every flow that serves a case has run, and passed. */
  ghost predicate EveryServingFlowPassed(v: Input) {
    forall f :: f in v.flows && Serves(v.cases, f) ==> v.data.Some? && RanAndPassed(v.data.value.flows, f.id)
  }

  predicate RanAndPassed(results: seq<FlowResult>, id: string) {
    id in ById(results) && ById(results)[id].status == Passed
  }

  /** Every pass of these plans means that the flows serving their cases have passed. */
  ghost predicate PassMeansFlowsRan(cases: seq<TestCase>, flows: seq<Flow>) {
    forall v: Input :: v.cases == cases && v.flows == flows && Closes(v) ==> EveryServingFlowPassed(v)
  }

  /** Some case is served by flows of this id alone. */
  predicate OnlyFlowOfACase(cases: seq<TestCase>, flows: seq<Flow>, id: string) {
    exists t :: t in cases && NeedsData(flows, t.id) && forall f :: f in flows && Lists(f, t.id) ==> f.id == id
  }

  /** No flow that serves a case can be left out without a case noticing. */
  ghost predicate NoneDispensable(cases: seq<TestCase>, flows: seq<Flow>) {
    forall g :: g in flows && Serves(cases, g) ==> OnlyFlowOfACase(cases, flows, g.id)
  }

  // Results are looked up flow by flow and missing ones are skipped.  Whether a pass still means that
  // every flow ran is decided by the plans alone: each flow must be the only one of some case.
  lemma PassMeansFlowsRanIff(cases: seq<TestCase>, flows: seq<Flow>)
    ensures PassMeansFlowsRan(cases, flows) <==> NoneDispensable(cases, flows)
  {
    if NoneDispensable(cases, flows) {
      forall v: Input | v.cases == cases && v.flows == flows && Closes(v) ensures EveryServingFlowPassed(v) {
        IndispensableFlowsRan(v);
      }
    } else {
      var g :| g in flows && Serves(cases, g) && !OnlyFlowOfACase(cases, flows, g.id);
      ClosesWithout(cases, flows, g.id);
      assert !RanAndPassed(WithoutFlow(cases, flows, g.id).data.value.flows, g.id);
      assert !EveryServingFlowPassed(WithoutFlow(cases, flows, g.id));
    }
  }

  lemma IndispensableFlowsRan(v: Input)
    requires Closes(v) && NoneDispensable(v.cases, v.flows)
    ensures EveryServingFlowPassed(v)
  {
    forall g | g in v.flows && Serves(v.cases, g) ensures v.data.Some? && RanAndPassed(v.data.value.flows, g.id) {
      assert OnlyFlowOfACase(v.cases, v.flows, g.id);
      var t :| t in v.cases && NeedsData(v.flows, t.id) && forall f :: f in v.flows && Lists(f, t.id) ==> f.id == g.id;
      assert CasePasses(v, t) && DataPasses(v, t.id);
      var f :| f in v.flows && Lists(f, t.id) && f.id in ById(v.data.value.flows);
    }
  }

  /** A passed result for every flow whose id is not `id`. */
  function ResultsWithout(flows: seq<Flow>, id: string): seq<FlowResult> {
    if flows == [] then []
    else
      var last := flows[|flows| - 1];
      ResultsWithout(flows[..|flows| - 1], id) + if last.id == id then [] else [FlowResult(last.id, Passed)]
  }

  predicate HasFlow(flows: seq<Flow>, id: string) {
    exists f :: f in flows && f.id == id
  }

  lemma {:induction false} ResultsWithoutAre(flows: seq<Flow>, id: string)
    ensures forall k :: k in ById(ResultsWithout(flows, id)) <==> k != id && HasFlow(flows, k)
    ensures forall k :: k in ById(ResultsWithout(flows, id)) ==> ById(ResultsWithout(flows, id))[k].status == Passed
  {
    if flows != [] {
      var front, last := flows[..|flows| - 1], flows[|flows| - 1];
      var before, results := ResultsWithout(front, id), ResultsWithout(flows, id);
      ResultsWithoutAre(front, id);
      assert flows == front + [last];
      assert forall k :: HasFlow(flows, k) <==> HasFlow(front, k) || last.id == k;
      if last.id != id {
        assert results[..|results| - 1] == before;
      } else {
        assert results == before;
      }
    }
  }

  /** One passed scenario for every UI case id, under its own name. */
  function ScenariosFor(cases: seq<TestCase>): seq<ScenarioResult> {
    if cases == [] then []
    else
      var front, last := ScenariosFor(cases[..|cases| - 1]), cases[|cases| - 1];
      var scenario := ScenarioResult(last.id, Passed);
      if last.ui && scenario !in front then front + [scenario] else front
  }

  lemma {:induction false} ScenariosForAre(cases: seq<TestCase>)
    ensures forall t :: t in cases && t.ui ==> ScenarioResult(t.id, Passed) in ScenariosFor(cases)
    ensures forall i, j :: 0 <= i < j < |ScenariosFor(cases)| ==> ScenariosFor(cases)[i] != ScenariosFor(cases)[j]
    ensures forall i :: 0 <= i < |ScenariosFor(cases)| ==> ScenariosFor(cases)[i].status == Passed
  {
    if cases != [] {
      ScenariosForAre(cases[..|cases| - 1]);
      assert cases == cases[..|cases| - 1] + [cases[|cases| - 1]];
    }
  }

  lemma OwnScenario(items: seq<ScenarioResult>, i: int, k: int, c: string)
    ensures Claims(items, [], i, k, c) <==> 0 <= i < |items| && k == 0 && items[i].scenario == c
  {
  }

  /** Evidence that is in order throughout, except that the flows called `id` have no result. */
  function WithoutFlow(cases: seq<TestCase>, flows: seq<Flow>, id: string): (v: Input)
    ensures v.cases == cases && v.flows == flows && v.data.Some?
  {
    Input(true, [], cases, flows, true, RuleReport([Rule("r", true)], 1, 1, 100.0, Passed),
          Some(EditResult(InScope, true, true, [], ["run"], true, ["a"])),
          Some(DataResult(Passed, Passed, ResultsWithout(flows, id))),
          Some(UiResult(Passed, ScenariosFor(cases), [], [], [])),
          Some(LineCoverage(ChangeCoverage.Passed, [])), [], false, true, None)
  }

  lemma ScenariosClose(v: Input, cases: seq<TestCase>)
    requires v.ui.Some? && v.ui.value.scenarios == ScenariosFor(cases) && v.mappings == []
    ensures ClaimedOnce(v.ui.value.scenarios, v.mappings)
    ensures forall t :: t in cases && t.ui ==> UiCasePasses(v, t.id)
  {
    var items := ScenariosFor(cases);
    ScenariosForAre(cases);
    forall i, k, c ensures Claims(items, [], i, k, c) <==> 0 <= i < |items| && k == 0 && items[i].scenario == c {
      OwnScenario(items, i, k, c);
    }
    forall t | t in cases && t.ui ensures UiCasePasses(v, t.id) {
      var i :| 0 <= i < |items| && items[i] == ScenarioResult(t.id, Passed);
      assert Claims(items, v.mappings, i, 0, t.id);
    }
  }

  lemma ClosesWithout(cases: seq<TestCase>, flows: seq<Flow>, id: string)
    requires !OnlyFlowOfACase(cases, flows, id)
    ensures Closes(WithoutFlow(cases, flows, id))
    ensures id !in ById(WithoutFlow(cases, flows, id).data.value.flows)
  {
    var v := WithoutFlow(cases, flows, id);
    ResultsWithoutAre(flows, id);
    ScenariosClose(v, cases);
    RulesSatisfiedLiteral(v.rules);
    forall t | t in cases ensures CasePasses(v, t) {
      if NeedsData(flows, t.id) {
        var f :| f in flows && Lists(f, t.id) && f.id != id;
        assert DataPasses(v, t.id);
      }
    }
  }

  lemma RulesSatisfiedLiteral(r: RuleReport)
    requires r == RuleReport([Rule("r", true)], 1, 1, 100.0, Passed)
    ensures RulesSatisfied(r)
  {
  }

  // One plan where a pass does not mean it: two flows for one case, one of them without a result.
  lemma UnexecutedFlowCanPass() returns (v: Input, f: Flow)
    ensures Closes(v) && f in v.flows && Serves(v.cases, f) && v.data.Some? && f.id !in ById(v.data.value.flows)
  {
    var t := TestCase("t", false);
    f := Flow("g", ["t"]);
    var flows := [Flow("f", ["t"]), f];
    v := WithoutFlow([t], flows, "g");
    assert flows[0] in flows && flows[1] in flows && Lists(flows[0], "t");
    ClosesWithout([t], flows, "g");
    assert t in v.cases && Lists(f, t.id);
  }
}
