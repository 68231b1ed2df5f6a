/** Acceptance of a test plan and the data plan that executes it. */
module PlanAlignment {
  import opened Wrappers
  import opened Sequences
  import D = DataCoverage

  datatype Case = Case(id: string, ui: bool, browser: bool, steps: seq<string>, stepIds: seq<string>, dataRefs: seq<string>,
                       criteria: seq<string>)

  /** A step is executable when it runs on the UI and carries a Playwright action. */
  datatype Step = Step(action: string, refs: seq<string>, ui: bool, playwright: bool, postconditions: seq<Assertion>)

  datatype Assertion = Assertion(onUi: bool)

  datatype Flow = Flow(cases: seq<string>, steps: seq<Step>, cleanup: seq<string>, finals: seq<Assertion>)

  datatype Plans = Plans(cases: seq<Case>, dataSets: seq<D.DataSet>, flows: seq<Flow>)

  // ----- the declared condition -----------------------------------------------------------

  predicate Named(ids: seq<string>) {
    ids != [] && "" !in ids && Unique(ids)
  }

  function Ids(cases: seq<Case>): (r: seq<string>)
    ensures |r| == |cases| && forall i :: 0 <= i < |cases| ==> r[i] == cases[i].id
  {
    if cases == [] then [] else Ids(cases[..|cases| - 1]) + [cases[|cases| - 1].id]
  }

  predicate StepsOk(c: Case, natural: string -> bool) {
    && |c.stepIds| == |c.steps| && "" !in c.stepIds
    && forall s :: s in c.steps ==> natural(s)
  }

  /** Step `k` of case `i` is called `id`. */
  predicate Owns(cases: seq<Case>, i: int, k: int, id: string) {
    0 <= i < |cases| && 0 <= k < |cases[i].stepIds| && cases[i].stepIds[k] == id
  }

  ghost predicate StepIdsUnique(cases: seq<Case>) {
    forall i, k, j, l, id :: Owns(cases, i, k, id) && Owns(cases, j, l, id) ==> i == j && k == l
  }

  predicate Executable(s: Step) {
    s.ui && s.playwright
  }

  predicate StepOk(s: Step, allowed: set<string>, natural: string -> bool) {
    && natural(s.action)
    && (forall id :: id in s.refs ==> id in allowed)
    && (if s.ui then s.playwright else s.refs == [])
  }

  predicate FlowOk(f: Flow, allowed: set<string>, natural: string -> bool) {
    && (forall s :: s in f.steps ==> StepOk(s, allowed, natural))
    && (forall a :: a in f.cleanup ==> natural(a))
  }

  predicate Refers(f: Flow, id: string) {
    exists s :: s in f.steps && s.ui && id in s.refs
  }

  predicate SeesUi(f: Flow) {
    || (exists a :: a in f.finals && a.onUi)
    || (exists s, a :: s in f.steps && a in s.postconditions && a.onUi)
  }

  /** The flow drives the UI and asserts something about it. */
  predicate Exercises(f: Flow) {
    (exists s :: s in f.steps && Executable(s)) && SeesUi(f)
  }

  function AllowedIn(cases: seq<Case>, f: Flow): set<string> {
    set c, id | c in cases && c.id in f.cases && id in c.stepIds :: id
  }

  predicate FlowLists(f: Flow, c: string) {
    c in f.cases
  }

  /** A flow that lists the case runs its step `id` on the UI. */
  ghost predicate ReferredByOwnFlow(flows: seq<Flow>, c: Case, id: string) {
    exists f :: f in flows && FlowLists(f, c.id) && Refers(f, id)
  }

  ghost predicate CasesAligned(p: Plans, natural: string -> bool) {
    && Named(Ids(p.cases))
    && (forall c :: c in p.cases ==> c.ui && c.browser)
    && (forall i :: 0 <= i < |p.cases| ==> StepsOk(p.cases[i], natural))
    && StepIdsUnique(p.cases)
  }

  function DataIds(dataSets: seq<D.DataSet>): (r: seq<string>)
    ensures |r| == |dataSets| && forall i :: 0 <= i < |r| ==> r[i] == dataSets[i].id
  {
    if dataSets == [] then [] else DataIds(dataSets[..|dataSets| - 1]) + [dataSets[|dataSets| - 1].id]
  }

  predicate DataAligned(p: Plans) {
    && Named(DataIds(p.dataSets))
    && (forall c :: c in p.cases ==> c.dataRefs != [] && forall d :: d in c.dataRefs ==> d in DataIds(p.dataSets))
  }

  ghost predicate CasesCovered(cases: seq<Case>, flows: seq<Flow>) {
    forall c :: c in Ids(cases) <==> exists f :: f in flows && FlowLists(f, c)
  }

  predicate FlowsOk(cases: seq<Case>, flows: seq<Flow>, natural: string -> bool) {
    forall f :: f in flows ==> FlowOk(f, AllowedIn(cases, f), natural)
  }

  ghost predicate StepsReferred(cases: seq<Case>, flows: seq<Flow>) {
    forall c, id :: c in cases && id in c.stepIds ==> ReferredByOwnFlow(flows, c, id)
  }

  predicate UiExercised(cases: seq<Case>, flows: seq<Flow>) {
    forall c :: c in cases ==> exists f :: f in flows && FlowLists(f, c.id) && Exercises(f)
  }

  ghost predicate FlowsAligned(p: Plans, natural: string -> bool) {
    && CasesCovered(p.cases, p.flows)
    && FlowsOk(p.cases, p.flows, natural)
    && StepsReferred(p.cases, p.flows)
    && UiExercised(p.cases, p.flows)
  }

  /** What the cases ask of the data sets. */
  function WantedBy(cases: seq<Case>): (r: seq<D.Wanted>)
    ensures |r| == |cases|
    ensures forall i :: 0 <= i < |r| ==> r[i] == D.Wanted(cases[i].id, cases[i].criteria, cases[i].dataRefs)
  {
    if cases == [] then []
    else
      var last := cases[|cases| - 1];
      WantedBy(cases[..|cases| - 1]) + [D.Wanted(last.id, last.criteria, last.dataRefs)]
  }

  ghost predicate Aligned(p: Plans, natural: string -> bool) {
    CasesAligned(p, natural) && DataAligned(p) && FlowsAligned(p, natural)
    && D.Aligned(WantedBy(p.cases), p.dataSets, None)
  }

  // ----- test cases and their steps -----------------------------------------------------------

  function StepIdsOf(cases: seq<Case>): set<string> {
    set c, id | c in cases && id in c.stepIds :: id
  }

  lemma StepIdsUniqueStep(cases: seq<Case>, c: Case)
    ensures StepIdsUnique(cases + [c]) <==>
              StepIdsUnique(cases) && Unique(c.stepIds) && StepIdsOf(cases) * ToSet(c.stepIds) == {}
  {
    var all := cases + [c];
    var n := |cases|;
    assert forall i, k, id :: Owns(cases, i, k, id) <==> Owns(all, i, k, id) && i < n;
    assert forall k, id :: Owns(all, n, k, id) <==> 0 <= k < |c.stepIds| && c.stepIds[k] == id;
    if StepIdsUnique(all) {
      forall k, l | 0 <= k < l < |c.stepIds| ensures c.stepIds[k] != c.stepIds[l] {
        assert Owns(all, n, k, c.stepIds[k]) && Owns(all, n, l, c.stepIds[l]);
      }
      forall id | id in StepIdsOf(cases) ensures id !in ToSet(c.stepIds) {
        var d :| d in cases && id in d.stepIds;
        var i :| 0 <= i < n && cases[i] == d;
        var k :| 0 <= k < |d.stepIds| && d.stepIds[k] == id;
        assert Owns(all, i, k, id);
        if id in c.stepIds {
          var l :| 0 <= l < |c.stepIds| && c.stepIds[l] == id;
          assert Owns(all, n, l, id);
        }
      }
    }
    forall i, k, id | Owns(cases, i, k, id) ensures id in StepIdsOf(cases) {
      assert cases[i] in cases && id in cases[i].stepIds;
    }
    assert forall k, id :: Owns(all, n, k, id) ==> id in ToSet(c.stepIds);
    Apart(StepIdsOf(cases), ToSet(c.stepIds));
    assert forall i, k, id :: Owns(all, i, k, id) ==> i == n || Owns(cases, i, k, id);
  }

  lemma StepIdsUniqueInPrefix(cases: seq<Case>, n: nat)
    requires n <= |cases| && StepIdsUnique(cases)
    ensures StepIdsUnique(cases[..n])
  {
    assert forall i, k, id :: Owns(cases[..n], i, k, id) ==> Owns(cases, i, k, id);
  }

  /** The step ids of the first `n` cases, by case id. */
  ghost predicate Indexed(cases: seq<Case>, n: nat, byCase: map<string, set<string>>)
    requires n <= |cases|
  {
    && (forall id :: id in byCase ==> exists j :: 0 <= j < n && cases[j].id == id)
    && (forall j :: 0 <= j < n ==> cases[j].id in byCase && byCase[cases[j].id] == ToSet(cases[j].stepIds))
  }

  predicate DistinctCases(cases: seq<Case>) {
    forall i, j :: 0 <= i < j < |cases| ==> cases[i].id != cases[j].id
  }

  lemma DistinctIds(cases: seq<Case>)
    ensures Unique(Ids(cases)) <==> DistinctCases(cases)
  {
    var ids := Ids(cases);
    forall i, j | 0 <= i < j < |cases| ensures ids[i] != ids[j] <==> cases[i].id != cases[j].id {
    }
  }

  lemma IndexedStep(cases: seq<Case>, i: nat, byCase: map<string, set<string>>)
    requires i < |cases| && Indexed(cases, i, byCase) && DistinctCases(cases)
    ensures Indexed(cases, i + 1, byCase[cases[i].id := ToSet(cases[i].stepIds)])
  {
    var byCase' := byCase[cases[i].id := ToSet(cases[i].stepIds)];
    forall id | id in byCase' ensures exists j :: 0 <= j < i + 1 && cases[j].id == id {
      if id == cases[i].id {
        assert cases[i].id == id;
      } else {
        var j :| 0 <= j < i && cases[j].id == id;
      }
    }
  }

  lemma PrefixUnique(cases: seq<Case>, i: nat)
    requires i < |cases|
    ensures StepIdsUnique(cases) ==> StepIdsUnique(cases[..i + 1])
    ensures StepIdsUnique(cases[..i + 1]) <==>
              StepIdsUnique(cases[..i]) && Unique(cases[i].stepIds) && StepIdsOf(cases[..i]) * ToSet(cases[i].stepIds) == {}
    ensures StepIdsOf(cases[..i + 1]) == StepIdsOf(cases[..i]) + ToSet(cases[i].stepIds)
  {
    assert cases[..i + 1] == cases[..i] + [cases[i]];
    StepIdsUniqueStep(cases[..i], cases[i]);
    if StepIdsUnique(cases) {
      StepIdsUniqueInPrefix(cases, i + 1);
    }
  }

  method AllNatural(texts: seq<string>, natural: string -> bool) returns (ok: bool)
    ensures ok <==> forall t :: t in texts ==> natural(t)
  {
    for i := 0 to |texts|
      invariant forall j :: 0 <= j < i ==> natural(texts[j])
    {
      if !natural(texts[i]) {
        assert texts[i] in texts;
        return false;
      }
    }
    return true;
  }

  method CollectSteps(cases: seq<Case>, natural: string -> bool) returns (r: Result<(map<string, set<string>>, set<string>), string>)
    requires DistinctCases(cases)
    ensures r.Ok? <==> StepIdsUnique(cases) && forall i :: 0 <= i < |cases| ==> StepsOk(cases[i], natural)
    ensures r.Ok? ==> Indexed(cases, |cases|, r.value.0) && r.value.1 == StepIdsOf(cases)
  {
    var byCase: map<string, set<string>> := map[];
    var all: set<string> := {};
    for i := 0 to |cases|
      invariant Indexed(cases, i, byCase)
      invariant all == StepIdsOf(cases[..i])
      invariant StepIdsUnique(cases[..i])
      invariant forall j :: 0 <= j < i ==> StepsOk(cases[j], natural)
    {
      var c := cases[i];
      PrefixUnique(cases, i);
      IndexedStep(cases, i, byCase);
      UniqueCount(c.stepIds);
      if |c.stepIds| != |c.steps| || "" in c.stepIds {
        assert !StepsOk(cases[i], natural);
        return Err("one step id for every step");
      }
      if |c.stepIds| != |ToSet(c.stepIds)| || all * ToSet(c.stepIds) != {} {
        return Err("step ids must be globally unique");
      }
      var readable := AllNatural(c.steps, natural);
      if !readable {
        assert !StepsOk(cases[i], natural);
        return Err("steps must be natural language");
      }
      byCase := byCase[c.id := ToSet(c.stepIds)];
      all := all + ToSet(c.stepIds);
    }
    assert cases[..|cases|] == cases;
    return Ok((byCase, all));
  }

  method CheckDataRefs(cases: seq<Case>, dataIds: seq<string>) returns (ok: bool)
    ensures ok <==> forall c :: c in cases ==> c.dataRefs != [] && forall d :: d in c.dataRefs ==> d in dataIds
  {
    for i := 0 to |cases|
      invariant forall j :: 0 <= j < i ==> cases[j].dataRefs != [] && forall d :: d in cases[j].dataRefs ==> d in dataIds
    {
      var refs := ToSet(cases[i].dataRefs);
      assert cases[i] in cases;
      assert cases[i].dataRefs != [] ==> cases[i].dataRefs[0] in refs;
      assert forall d :: d in cases[i].dataRefs <==> d in refs;
      if refs == {} || !(refs <= ToSet(dataIds)) {
        return false;
      }
    }
    return true;
  }

  // ----- flows -----------------------------------------------------------------------------------

  method CheckFlow(f: Flow, allowed: set<string>, natural: string -> bool) returns (r: Result<set<string>, string>)
    ensures r.Ok? <==> FlowOk(f, allowed, natural)
    ensures r.Ok? ==> forall id :: id in r.value <==> Refers(f, id)
  {
    var executable: set<string> := {};
    for i := 0 to |f.steps|
      invariant forall j :: 0 <= j < i ==> StepOk(f.steps[j], allowed, natural)
      invariant forall id :: id in executable <==> exists j :: 0 <= j < i && f.steps[j].ui && id in f.steps[j].refs
    {
      var step := f.steps[i];
      assert step in f.steps;
      if !natural(step.action) {
        return Err("business action must be natural language");
      }
      var refs := ToSet(step.refs);
      assert step.refs != [] ==> step.refs[0] in refs;
      assert forall id :: id in step.refs <==> id in refs;
      if !(refs <= allowed) {
        return Err("reference outside the flow");
      }
      if step.ui {
        if !step.playwright {
          return Err("UI step without a Playwright action");
        }
        executable := executable + refs;
      } else if refs != {} {
        return Err("only UI steps may reference steps");
      }
    }
    var readable := AllNatural(f.cleanup, natural);
    if !readable {
      return Err("cleanup action must be natural language");
    }
    forall id ensures id in executable <==> Refers(f, id) {
      if Refers(f, id) {
        var s :| s in f.steps && s.ui && id in s.refs;
        var j :| 0 <= j < |f.steps| && f.steps[j] == s;
      }
    }
    return Ok(executable);
  }

  function GetIds(m: map<string, set<string>>, c: string): set<string> {
    if c in m then m[c] else {}
  }

  lemma AllowedAre(cases: seq<Case>, byCase: map<string, set<string>>, f: Flow)
    requires Indexed(cases, |cases|, byCase)
    ensures (set c, id | c in f.cases && id in GetIds(byCase, c) :: id) == AllowedIn(cases, f)
  {
    var got := set c, id | c in f.cases && id in GetIds(byCase, c) :: id;
    forall id | id in got ensures id in AllowedIn(cases, f) {
      var c :| c in f.cases && id in GetIds(byCase, c);
      var i :| 0 <= i < |cases| && cases[i].id == c;
      assert cases[i] in cases && id in cases[i].stepIds;
    }
    forall id | id in AllowedIn(cases, f) ensures id in got {
      var c :| c in cases && c.id in f.cases && id in c.stepIds;
      assert id in GetIds(byCase, c.id);
    }
  }

  /** The step ids some flow refers to. */
  ghost predicate AreReferred(ids: set<string>, flows: seq<Flow>) {
    forall id :: id in ids <==> exists f :: f in flows && Refers(f, id)
  }

  method CheckFlows(cases: seq<Case>, flows: seq<Flow>, byCase: map<string, set<string>>, natural: string -> bool)
    returns (r: Result<set<string>, string>)
    requires Indexed(cases, |cases|, byCase)
    ensures r.Ok? <==> FlowsOk(cases, flows, natural)
    ensures r.Ok? ==> AreReferred(r.value, flows)
  {
    var executable: set<string> := {};
    for i := 0 to |flows|
      invariant forall j :: 0 <= j < i ==> FlowOk(flows[j], AllowedIn(cases, flows[j]), natural)
      invariant forall id :: id in executable <==> exists j :: 0 <= j < i && Refers(flows[j], id)
    {
      var f := flows[i];
      assert f in flows;
      AllowedAre(cases, byCase, f);
      var refs := CheckFlow(f, set c, id | c in f.cases && id in GetIds(byCase, c) :: id, natural);
      if refs.Err? {
        return Err(refs.error);
      }
      executable := executable + refs.value;
    }
    forall id ensures id in executable <==> exists f :: f in flows && Refers(f, id) {
      if f :| f in flows && Refers(f, id) {
        var j :| 0 <= j < |flows| && flows[j] == f;
      }
    }
    return Ok(executable);
  }

  method CheckUi(cases: seq<Case>, flows: seq<Flow>) returns (ok: bool)
    ensures ok <==> UiExercised(cases, flows)
  {
    for i := 0 to |cases|
      invariant forall j :: 0 <= j < i ==> exists f :: f in flows && FlowLists(f, cases[j].id) && Exercises(f)
    {
      assert cases[i] in cases;
      if !(exists f :: f in flows && FlowLists(f, cases[i].id)) {
        return false;
      }
      if !(exists f :: f in flows && FlowLists(f, cases[i].id) && Exercises(f)) {
        return false;
      }
    }
    return true;
  }

  // A flow may only refer to steps of its own cases and no two cases share a step, so a step that
  // is referred to at all is referred to by a flow that lists its case.
  lemma ReferredInItsOwnFlow(cases: seq<Case>, flows: seq<Flow>, natural: string -> bool, c: Case, id: string)
    requires StepIdsUnique(cases)
    requires FlowsOk(cases, flows, natural)
    requires c in cases && id in c.stepIds
    ensures (exists f :: f in flows && Refers(f, id)) <==> ReferredByOwnFlow(flows, c, id)
  {
    if f :| f in flows && Refers(f, id) {
      var s :| s in f.steps && s.ui && id in s.refs;
      assert id in AllowedIn(cases, f);
      var d :| d in cases && d.id in f.cases && id in d.stepIds;
      var i :| 0 <= i < |cases| && cases[i] == c;
      var j :| 0 <= j < |cases| && cases[j] == d;
      var k :| 0 <= k < |c.stepIds| && c.stepIds[k] == id;
      var l :| 0 <= l < |d.stepIds| && d.stepIds[l] == id;
      assert Owns(cases, i, k, id) && Owns(cases, j, l, id);
      assert FlowLists(f, c.id);
    }
  }

  lemma EveryStepReferred(cases: seq<Case>, flows: seq<Flow>, natural: string -> bool, executable: set<string>)
    requires StepIdsUnique(cases)
    requires FlowsOk(cases, flows, natural)
    requires AreReferred(executable, flows)
    ensures StepIdsOf(cases) - executable == {} <==> StepsReferred(cases, flows)
  {
    forall c, id | c in cases && id in c.stepIds
      ensures id in StepIdsOf(cases)
      ensures id in executable <==> ReferredByOwnFlow(flows, c, id)
    {
      ReferredInItsOwnFlow(cases, flows, natural, c, id);
    }
    forall c, id | c in cases && id in c.stepIds && id !in executable ensures StepIdsOf(cases) - executable != {} {
      assert id in StepIdsOf(cases) - executable;
    }
  }

  // ----- the validator --------------------------------------------------------------------------

  function CoveredCases(flows: seq<Flow>): set<string> {
    set f, c | f in flows && c in f.cases :: c
  }

  lemma CoveredExactly(cases: seq<Case>, flows: seq<Flow>)
    ensures CoveredCases(flows) == ToSet(Ids(cases)) <==> CasesCovered(cases, flows)
  {
    assert forall c :: c in CoveredCases(flows) <==> exists f :: f in flows && FlowLists(f, c);
    assert forall c :: c in ToSet(Ids(cases)) <==> c in Ids(cases);
  }

  method NamedIds(ids: seq<string>) returns (ok: bool)
    ensures ok <==> Named(ids)
  {
    UniqueCount(ids);
    ok := ids != [] && "" !in ids && |ids| == |ToSet(ids)|;
  }

  method ValidateCases(p: Plans, natural: string -> bool) returns (r: Result<(map<string, set<string>>, set<string>), string>)
    ensures r.Ok? <==> CasesAligned(p, natural)
    ensures r.Ok? ==> Indexed(p.cases, |p.cases|, r.value.0) && r.value.1 == StepIdsOf(p.cases)
  {
    var idsOk := NamedIds(Ids(p.cases));
    DistinctIds(p.cases);
    if !idsOk {
      return Err("case ids");
    }
    if exists c :: c in p.cases && (!c.ui || !c.browser) {
      return Err("only browser UI cases");
    }
    r := CollectSteps(p.cases, natural);
  }

  method ValidateData(p: Plans) returns (ok: bool)
    ensures ok <==> DataAligned(p)
  {
    var idsOk := NamedIds(DataIds(p.dataSets));
    if !idsOk {
      return false;
    }
    ok := CheckDataRefs(p.cases, DataIds(p.dataSets));
  }

  method ValidateFlows(p: Plans, byCase: map<string, set<string>>, all: set<string>, natural: string -> bool)
    returns (reason: Option<string>)
    requires CasesAligned(p, natural) && Indexed(p.cases, |p.cases|, byCase) && all == StepIdsOf(p.cases)
    ensures reason.None? <==> FlowsAligned(p, natural)
  {
    CoveredExactly(p.cases, p.flows);
    if CoveredCases(p.flows) != ToSet(Ids(p.cases)) {
      return Some("flows must cover exactly every case");
    }
    var executable := CheckFlows(p.cases, p.flows, byCase, natural);
    if executable.Err? {
      return Some(executable.error);
    }
    EveryStepReferred(p.cases, p.flows, natural, executable.value);
    if all - executable.value != {} {
      return Some("steps without an executable step");
    }
    var uiOk := CheckUi(p.cases, p.flows);
    if !uiOk {
      return Some("case without a UI step and assertion");
    }
    return None;
  }

  /** The first reason against the plans, or None. */
  method ValidatePlanningAlignment(p: Plans, natural: string -> bool) returns (reason: Option<string>)
    ensures reason.None? <==> Aligned(p, natural)
  {
    var steps := ValidateCases(p, natural);
    if steps.Err? {
      return Some(steps.error);
    }
    var dataOk := ValidateData(p);
    if !dataOk {
      return Some("data");
    }
    var flows := ValidateFlows(p, steps.value.0, steps.value.1, natural);
    if flows.Some? {
      return flows;
    }
    var reasons := D.ValidateAlignment(WantedBy(p.cases), p.dataSets, None);
    return if reasons == [] then None else Some("data coverage");
  }
}
