/** Completing a proposed code scope with its two-hop Code Graph closure. */
module ImpactClosure {
  import opened Wrappers
  import opened Ordering
  import opened CodeGraph

  const HOPS := 2

  datatype Action = Modify | Add | Delete | ReviewOnly

  /** Why a file is in scope: the submitted text, or the fixed sentence of the closure. */
  datatype Rationale = Stated(text: string) | ClosureMember

  datatype Scope = Scope(targetPath: string, targetSymbols: seq<string>, action: Action,
                         testRefs: seq<string>, rationale: Rationale, uiImpact: bool,
                         relatedCode: seq<string>, graphRefs: seq<string>)

  // ----- one seed ------------------------------------------------------------------

  /** What the bounded search from one seed finds. */
  datatype Finding = Finding(code: set<string>, tests: set<string>, refs: set<string>)

  /** The findings of every file of the graph. */
  type Survey = map<string, Finding>

  datatype Index = Index(adjacency: Adjacency, roles: map<string, Role>)

  function FindingOf(index: Index, seed: string): Finding {
    var ball := Ball(index.adjacency, seed, HOPS);
    Finding((set q | q in ball && q != seed && q in index.roles && index.roles[q].IsCode()),
            (set q | q in ball && q in index.roles && index.roles[q] == Test),
            EdgesAt(index.adjacency, Ball(index.adjacency, seed, HOPS - 1)))
  }

  function SurveyOf(index: Index): (survey: Survey)
    ensures survey.Keys == index.roles.Keys
    ensures forall p :: p in index.roles ==> survey[p] == FindingOf(index, p)
  {
    map p | p in index.roles :: FindingOf(index, p)
  }

  // What the search finds is stated without the search: files by their distance in hops,
  // edges by the files they touch.
  lemma FindingsByDistance(index: Index, edges: seq<Edge>, refs: map<string, string>, seed: string)
    requires Represents(index.adjacency, edges, refs)
    ensures forall q :: q in FindingOf(index, seed).code <==>
              WithinHops(edges, refs, seed, 2, q) && q != seed && q in index.roles && index.roles[q].IsCode()
    ensures forall q :: q in FindingOf(index, seed).tests <==>
              WithinHops(edges, refs, seed, 2, q) && q in index.roles && index.roles[q] == Test
    ensures forall id :: id in FindingOf(index, seed).refs <==>
              exists e :: e in edges && Usable(e, refs) && e.edgeId == id
                          && (WithinHops(edges, refs, seed, 1, refs[e.fromRef])
                              || WithinHops(edges, refs, seed, 1, refs[e.toRef]))
  {
    forall q ensures q in Ball(index.adjacency, seed, HOPS) <==> WithinHops(edges, refs, seed, 2, q) {
      BallIsWithinHops(index.adjacency, edges, refs, seed, HOPS, q);
    }
    forall q ensures q in Ball(index.adjacency, seed, HOPS - 1) <==> WithinHops(edges, refs, seed, 1, q) {
      BallIsWithinHops(index.adjacency, edges, refs, seed, HOPS - 1, q);
    }
    forall id
      ensures id in FindingOf(index, seed).refs <==>
              exists e :: e in edges && Usable(e, refs) && e.edgeId == id
                          && (refs[e.fromRef] in Ball(index.adjacency, seed, HOPS - 1)
                              || refs[e.toRef] in Ball(index.adjacency, seed, HOPS - 1))
    {
      EdgesAtAreIncident(index.adjacency, edges, refs, Ball(index.adjacency, seed, HOPS - 1), id);
    }
  }

  method Search(index: Index, seed: string) returns (finding: Finding)
    ensures finding == FindingOf(index, seed)
  {
    var visited, refs := Explore(index.adjacency, seed, HOPS);
    finding := Finding((set q | q in visited && q != seed && q in index.roles && index.roles[q].IsCode()),
                       (set q | q in visited && q in index.roles && index.roles[q] == Test),
                       refs);
  }

  // ----- all seeds -----------------------------------------------------------------

  predicate IsSeed(survey: Survey, s: Scope) {
    s.action != ReviewOnly && s.targetPath in survey
  }

  function Annotate(survey: Survey, s: Scope): Scope {
    if IsSeed(survey, s) then
      s.(relatedCode := Sorted(survey[s.targetPath].code), graphRefs := Sorted(survey[s.targetPath].refs))
    else s
  }

  function TargetPaths(scopes: seq<Scope>): set<string> {
    set s | s in scopes :: s.targetPath
  }

  function SubmittedTests(scopes: seq<Scope>): set<string> {
    set s, t | s in scopes && t in s.testRefs :: t
  }

  /** The collections the seed loop fills: code files not submitted, the edges recorded for
      each of them, and test files not submitted. */
  datatype Collected = Collected(code: set<string>, refsByPath: map<string, set<string>>, tests: set<string>)

  function CollectOne(c: Collected, lackingCode: set<string>, lackingTests: set<string>, refs: set<string>): Collected {
    Collected(c.code + lackingCode,
              map p | p in c.refsByPath.Keys + lackingCode ::
                (if p in c.refsByPath then c.refsByPath[p] else {}) + (if p in lackingCode then refs else {}),
              c.tests + lackingTests)
  }

  function CollectScope(c: Collected, survey: Survey, s: Scope, submitted: set<string>, tests: set<string>): Collected {
    if IsSeed(survey, s) then
      var finding := survey[s.targetPath];
      CollectOne(c, finding.code - submitted, finding.tests - tests, finding.refs)
    else c
  }

  function Gather(survey: Survey, scopes: seq<Scope>, submitted: set<string>, tests: set<string>): (c: Collected)
    ensures c.refsByPath.Keys == c.code
  {
    if scopes == [] then Collected({}, map[], {})
    else
      var front, last := scopes[..|scopes| - 1], scopes[|scopes| - 1];
      CollectScope(Gather(survey, front, submitted, tests), survey, last, submitted, tests)
  }

  /** Some scope of the list is a seed, with this finding. */
  predicate Surveyed(survey: Survey, scopes: seq<Scope>, finding: Finding) {
    exists s :: s in scopes && IsSeed(survey, s) && survey[s.targetPath] == finding
  }

  // What is missing is what some seed finds and nobody submitted; the edges recorded for a
  // missing file are those of every seed that finds it.
  lemma {:induction false} GatherMeaning(survey: Survey, scopes: seq<Scope>, submitted: set<string>, tests: set<string>)
    ensures forall q :: q in Gather(survey, scopes, submitted, tests).code <==>
              q !in submitted && exists f :: Surveyed(survey, scopes, f) && q in f.code
    ensures forall q :: q in Gather(survey, scopes, submitted, tests).tests <==>
              q !in tests && exists f :: Surveyed(survey, scopes, f) && q in f.tests
    ensures forall q, id :: q in Gather(survey, scopes, submitted, tests).code ==>
              (id in Gather(survey, scopes, submitted, tests).refsByPath[q] <==>
               exists f :: Surveyed(survey, scopes, f) && q in f.code && id in f.refs)
  {
    if scopes != [] {
      var front, last := scopes[..|scopes| - 1], scopes[|scopes| - 1];
      GatherMeaning(survey, front, submitted, tests);
      SurveyedStep(survey, front, last);
      assert scopes == front + [last];
    }
  }

  lemma SurveyedStep(survey: Survey, front: seq<Scope>, last: Scope)
    ensures forall f :: Surveyed(survey, front + [last], f) <==>
              Surveyed(survey, front, f) || (IsSeed(survey, last) && survey[last.targetPath] == f)
  {
    assert forall s :: s in front + [last] <==> s in front || s == last;
  }

  function AnnotateAll(survey: Survey, scopes: seq<Scope>): (r: seq<Scope>)
    ensures |r| == |scopes|
    ensures forall i :: 0 <= i < |scopes| ==> r[i] == Annotate(survey, scopes[i])
  {
    if scopes == [] then []
    else AnnotateAll(survey, scopes[..|scopes| - 1]) + [Annotate(survey, scopes[|scopes| - 1])]
  }

  function ReviewOnlyScope(path: string, tests: seq<string>, ui: bool, refs: set<string>): Scope {
    Scope(path, [], ReviewOnly, tests, ClosureMember, ui, [], Sorted(refs))
  }

  function AddedScopes(c: Collected, tests: seq<string>, isUi: string -> bool, order: seq<string>): (r: seq<Scope>)
    requires forall p :: p in order ==> p in c.refsByPath
    ensures |r| == |order|
    ensures forall i :: 0 <= i < |r| ==>
              r[i] == ReviewOnlyScope(order[i], tests, isUi(order[i]), c.refsByPath[order[i]])
  {
    if order == [] then []
    else
      var front, path := order[..|order| - 1], order[|order| - 1];
      AddedScopes(c, tests, isUi, front) + [ReviewOnlyScope(path, tests, isUi(path), c.refsByPath[path])]
  }

  /** The closure of a scope list: the tests it fails to cover, or the completed list. */
  function Closure(survey: Survey, scopes: seq<Scope>, isUi: string -> bool): Result<seq<Scope>, seq<string>> {
    var tests := SubmittedTests(scopes);
    var c := Gather(survey, scopes, TargetPaths(scopes), tests);
    if c.tests != {} then Err(Sorted(c.tests))
    else Ok(AnnotateAll(survey, scopes) + AddedScopes(c, Sorted(tests), isUi, Sorted(c.code)))
  }

  method BuildIndex(graph: Graph) returns (index: Index)
    ensures Represents(index.adjacency, graph.edges, PathByRef(graph.files))
    ensures index.roles == RoleByPath(graph.files)
  {
    var refs, roles := BuildIndexes(graph.files);
    var adjacency := BuildAdjacency(graph.edges, refs);
    index := Index(adjacency, roles);
  }

  class ScopeList {
    var scopes: seq<Scope>

    constructor (scopes: seq<Scope>)
      ensures this.scopes == scopes
    {
      this.scopes := scopes;
    }

    /** Annotates one seed in place and returns what it adds to the collections. */
    method AnnotateSeed(index: Index, i: nat, submitted: set<string>, tests: set<string>, c: Collected)
      returns (r: Collected)
      requires i < |scopes|
      modifies this
      ensures scopes == old(scopes)[i := Annotate(SurveyOf(index), old(scopes)[i])]
      ensures r == CollectScope(c, SurveyOf(index), old(scopes)[i], submitted, tests)
    {
      var scope := scopes[i];
      if scope.action == ReviewOnly || scope.targetPath !in index.roles {
        return c;
      }
      var finding := Search(index, scope.targetPath);
      scopes := scopes[i := scope.(relatedCode := Sorted(finding.code), graphRefs := Sorted(finding.refs))];
      r := CollectOne(c, finding.code - submitted, finding.tests - tests, finding.refs);
    }

    method AnnotateSeeds(index: Index, submitted: set<string>, tests: set<string>) returns (c: Collected)
      modifies this
      ensures scopes == AnnotateAll(SurveyOf(index), old(scopes))
      ensures c == Gather(SurveyOf(index), old(scopes), submitted, tests)
    {
      ghost var given, survey := scopes, SurveyOf(index);
      c := Collected({}, map[], {});
      for i := 0 to |scopes|
        invariant |scopes| == |given|
        invariant forall j :: 0 <= j < i ==> scopes[j] == Annotate(survey, given[j])
        invariant forall j :: i <= j < |given| ==> scopes[j] == given[j]
        invariant c == Gather(survey, given[..i], submitted, tests)
      {
        assert given[..i + 1][..i] == given[..i];
        c := AnnotateSeed(index, i, submitted, tests, c);
      }
      assert given[..|given|] == given;
    }

    method AppendReviewOnly(order: seq<string>, c: Collected, sharedTests: seq<string>, isUi: string -> bool)
      requires forall p :: p in order ==> p in c.refsByPath
      modifies this
      ensures scopes == old(scopes) + AddedScopes(c, sharedTests, isUi, order)
    {
      for i := 0 to |order|
        invariant scopes == old(scopes) + AddedScopes(c, sharedTests, isUi, order[..i])
      {
        var path := order[i];
        assert order[..i + 1][..i] == order[..i];
        scopes := scopes + [ReviewOnlyScope(path, sharedTests, isUi(path), c.refsByPath[path])];
      }
      assert order[..|order|] == order;
    }

    /** Rejects a submission whose tests do not cover the closure, and otherwise completes it. */
    method CompleteScopes(index: Index, isUi: string -> bool) returns (missing: Option<seq<string>>)
      modifies this
      ensures Closure(SurveyOf(index), old(scopes), isUi) == if missing.Some? then Err(missing.value) else Ok(scopes)
    {
      var tests := SubmittedTests(scopes);
      var c := AnnotateSeeds(index, TargetPaths(scopes), tests);
      if c.tests != {} {
        return Some(Sorted(c.tests));
      }
      AppendReviewOnly(Sorted(c.code), c, Sorted(tests), isUi);
      return None;
    }
  }

  // ----- what a completed scope list guarantees ---------------------------------------

  function Missing(survey: Survey, scopes: seq<Scope>): Collected {
    Gather(survey, scopes, TargetPaths(scopes), SubmittedTests(scopes))
  }

  /** `done` is `scopes`, annotated, followed by one review-only entry for each file of `order`. */
  predicate Extends(survey: Survey, scopes: seq<Scope>, order: seq<string>, done: seq<Scope>) {
    && |done| == |scopes| + |order|
    && (forall i :: 0 <= i < |scopes| ==> done[i] == Annotate(survey, scopes[i]))
    && (forall i :: |scopes| <= i < |done| ==>
          done[i].action == ReviewOnly && done[i].targetPath == order[i - |scopes|])
  }

  // The list only grew, by one review-only entry for each missing file.
  lemma ClosureOnlyAdds(survey: Survey, scopes: seq<Scope>, isUi: string -> bool)
    requires Closure(survey, scopes, isUi).Ok?
    ensures Missing(survey, scopes).tests == {}
    ensures Extends(survey, scopes, Sorted(Missing(survey, scopes).code), Closure(survey, scopes, isUi).value)
  {
    var c := Missing(survey, scopes);
    var order := Sorted(c.code);
    ExtendsByConcat(survey, scopes, order, AddedScopes(c, Sorted(SubmittedTests(scopes)), isUi, order));
  }

  lemma ExtendsByConcat(survey: Survey, scopes: seq<Scope>, order: seq<string>, added: seq<Scope>)
    requires |added| == |order|
    requires forall i :: 0 <= i < |added| ==> added[i].action == ReviewOnly && added[i].targetPath == order[i]
    ensures Extends(survey, scopes, order, AnnotateAll(survey, scopes) + added)
  {
  }

  // Nothing within two hops of a seed is left out: every such code file is a target, and every
  // such test file was submitted.
  lemma ExtensionIsComplete(survey: Survey, scopes: seq<Scope>, order: seq<string>, done: seq<Scope>, f: Finding)
    requires Extends(survey, scopes, order, done)
    requires Missing(survey, scopes).tests == {} && forall q :: q in Missing(survey, scopes).code ==> q in order
    requires Surveyed(survey, scopes, f)
    ensures f.code <= TargetPaths(done)
    ensures f.tests <= SubmittedTests(scopes)
  {
    GatherMeaning(survey, scopes, TargetPaths(scopes), SubmittedTests(scopes));
    forall q | q in f.code ensures q in TargetPaths(done) {
      if q in TargetPaths(scopes) {
        var i :| 0 <= i < |scopes| && scopes[i].targetPath == q;
        assert done[i] in done;
      } else {
        assert q in order;
        var i :| 0 <= i < |order| && order[i] == q;
        assert done[|scopes| + i] in done;
      }
    }
  }

  lemma ClosureIsComplete(survey: Survey, scopes: seq<Scope>, isUi: string -> bool, f: Finding)
    requires Closure(survey, scopes, isUi).Ok?
    requires Surveyed(survey, scopes, f)
    ensures f.code <= TargetPaths(Closure(survey, scopes, isUi).value)
    ensures f.tests <= SubmittedTests(scopes)
  {
    ClosureOnlyAdds(survey, scopes, isUi);
    ExtensionIsComplete(survey, scopes, Sorted(Missing(survey, scopes).code), Closure(survey, scopes, isUi).value, f);
  }

  predicate DistinctTargets(scopes: seq<Scope>) {
    forall i, j :: 0 <= i < j < |scopes| ==> scopes[i].targetPath != scopes[j].targetPath
  }

  lemma ExtensionKeepsTargetsDistinct(survey: Survey, scopes: seq<Scope>, order: seq<string>, done: seq<Scope>)
    requires Extends(survey, scopes, order, done) && DistinctTargets(scopes) && StrictlySorted(order)
    requires forall q :: q in order ==> q !in TargetPaths(scopes)
    ensures DistinctTargets(done)
  {
    forall i, j | 0 <= i < j < |done| ensures done[i].targetPath != done[j].targetPath {
      if i < |scopes| <= j {
        assert scopes[i] in scopes && order[j - |scopes|] in order;
      }
    }
  }

  lemma ClosureKeepsTargetsDistinct(survey: Survey, scopes: seq<Scope>, isUi: string -> bool)
    requires Closure(survey, scopes, isUi).Ok? && DistinctTargets(scopes)
    ensures DistinctTargets(Closure(survey, scopes, isUi).value)
  {
    ClosureOnlyAdds(survey, scopes, isUi);
    SortedIsStrict(Missing(survey, scopes).code);
    GatherMeaning(survey, scopes, TargetPaths(scopes), SubmittedTests(scopes));
    ExtensionKeepsTargetsDistinct(survey, scopes, Sorted(Missing(survey, scopes).code),
                                  Closure(survey, scopes, isUi).value);
  }

  // Extending adds no seed and withdraws no test, so there is nothing left to find.
  lemma ExtensionMissesNothing(survey: Survey, scopes: seq<Scope>, order: seq<string>, done: seq<Scope>)
    requires Extends(survey, scopes, order, done)
    requires Missing(survey, scopes).tests == {} && forall q :: q in Missing(survey, scopes).code ==> q in order
    ensures Missing(survey, done).code == {} && Missing(survey, done).tests == {}
  {
    GatherMeaning(survey, done, TargetPaths(done), SubmittedTests(done));
    forall q | q in SubmittedTests(scopes) ensures q in SubmittedTests(done) {
      var s :| s in scopes && q in s.testRefs;
      var i :| 0 <= i < |scopes| && scopes[i] == s;
      assert done[i] in done && q in done[i].testRefs;
    }
    forall f | Surveyed(survey, done, f)
      ensures f.code <= TargetPaths(done) && f.tests <= SubmittedTests(done)
    {
      var t :| t in done && IsSeed(survey, t) && survey[t.targetPath] == f;
      var i :| 0 <= i < |done| && done[i] == t;
      assert scopes[i] in scopes && IsSeed(survey, scopes[i]);
      ExtensionIsComplete(survey, scopes, order, done, f);
    }
    var c := Gather(survey, done, TargetPaths(done), SubmittedTests(done));
    assert forall q :: q !in c.code && q !in c.tests;
  }

  lemma ReAnnotate(survey: Survey, scopes: seq<Scope>, order: seq<string>, done: seq<Scope>)
    requires Extends(survey, scopes, order, done)
    ensures AnnotateAll(survey, done) == done
  {
  }

  // A completed list is a fixed point: validating it again succeeds and changes nothing.
  lemma ClosureIsIdempotent(survey: Survey, scopes: seq<Scope>, isUi: string -> bool)
    requires Closure(survey, scopes, isUi).Ok?
    ensures Closure(survey, Closure(survey, scopes, isUi).value, isUi) == Closure(survey, scopes, isUi)
  {
    var done, order := Closure(survey, scopes, isUi).value, Sorted(Missing(survey, scopes).code);
    ClosureOnlyAdds(survey, scopes, isUi);
    ExtensionMissesNothing(survey, scopes, order, done);
    ReAnnotate(survey, scopes, order, done);
    NothingMissing(survey, done, isUi);
    assert done + [] == done;
  }

  lemma NothingMissing(survey: Survey, scopes: seq<Scope>, isUi: string -> bool)
    requires Missing(survey, scopes).code == {} && Missing(survey, scopes).tests == {}
    ensures Closure(survey, scopes, isUi) == Ok(AnnotateAll(survey, scopes) + [])
  {
    assert Sorted({}) == [];
  }
}
