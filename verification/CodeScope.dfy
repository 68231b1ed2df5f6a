/** Admission of a proposed code scope: each entry against the graph, then the closure. */
module CodeScope {
  import opened Wrappers
  import opened Ordering
  import opened CodeGraph
  import opened ImpactClosure

  /** One proposed entry; `None` stands for an action or a UI flag of the wrong kind. */
  datatype Proposal = Proposal(path: string, action: Option<Action>, symbols: seq<string>,
                               testRefs: seq<string>, rationale: string, uiImpact: Option<bool>)

  /** Path tests whose text is not modelled: safety, planned-path rules, naming conventions. */
  datatype PathRules = PathRules(safe: string -> bool, plannable: string -> bool, testLike: string -> bool,
                                 fileLevel: string -> bool, ui: string -> bool, blank: string -> bool)

  datatype Rejection = NoDocumentEvidence | BadEntry(path: string) | UncoveredTests(paths: seq<string>)

  function FileByPath(files: seq<File>): map<string, File> {
    if files == [] then map[]
    else FileByPath(files[..|files| - 1])[files[|files| - 1].path := files[|files| - 1]]
  }

  function AvailableSymbols(file: File): set<string> {
    file.symbolNames
  }

  /** Symbols are dropped for files addressed as a whole; otherwise they must exist in the file. */
  predicate DropsSymbols(p: Proposal, file: File, rules: PathRules) {
    p.symbols != [] && (AvailableSymbols(file) == {} || rules.fileLevel(p.path))
  }

  predicate TargetAdmissible(p: Proposal, byPath: map<string, File>, rules: PathRules) {
    && rules.safe(p.path)
    && p.action.Some?
    && (p.action.value == Add ==> p.path !in byPath && rules.plannable(p.path) && p.symbols == [])
    && (p.action.value != Add ==>
          && p.path in byPath
          && (DropsSymbols(p, byPath[p.path], rules)
              || forall x :: x in p.symbols ==> x in AvailableSymbols(byPath[p.path])))
  }

  predicate TestRefAdmissible(t: string, byPath: map<string, File>, rules: PathRules) {
    && rules.safe(t)
    && (if t in byPath then byPath[t].role == Test else rules.testLike(t) && rules.plannable(t))
  }

  predicate Admissible(p: Proposal, byPath: map<string, File>, rules: PathRules) {
    && TargetAdmissible(p, byPath, rules)
    && p.testRefs != [] && (forall t :: t in p.testRefs ==> TestRefAdmissible(t, byPath, rules))
    && !rules.blank(p.rationale) && p.uiImpact.Some?
  }

  function Normalize(p: Proposal, byPath: map<string, File>, rules: PathRules): Scope
    requires Admissible(p, byPath, rules)
  {
    var symbols := if p.path in byPath && DropsSymbols(p, byPath[p.path], rules) then [] else p.symbols;
    Scope(p.path, symbols, p.action.value, p.testRefs, Stated(p.rationale), p.uiImpact.value, [], [])
  }

  function NormalizeAll(ps: seq<Proposal>, byPath: map<string, File>, rules: PathRules): (r: seq<Scope>)
    requires forall i :: 0 <= i < |ps| ==> Admissible(ps[i], byPath, rules)
    ensures |r| == |ps|
    ensures forall i :: 0 <= i < |ps| ==> r[i] == Normalize(ps[i], byPath, rules)
  {
    if ps == [] then []
    else NormalizeAll(ps[..|ps| - 1], byPath, rules) + [Normalize(ps[|ps| - 1], byPath, rules)]
  }

  predicate AllAdmissible(ps: seq<Proposal>, byPath: map<string, File>, rules: PathRules) {
    && (forall i :: 0 <= i < |ps| ==> Admissible(ps[i], byPath, rules))
    && (forall i, j :: 0 <= i < j < |ps| ==> ps[i].path != ps[j].path)
  }

  method BuildFileMap(files: seq<File>) returns (byPath: map<string, File>)
    ensures byPath == FileByPath(files)
  {
    byPath := map[];
    for i := 0 to |files|
      invariant byPath == FileByPath(files[..i])
    {
      assert files[..i + 1][..i] == files[..i];
      byPath := byPath[files[i].path := files[i]];
    }
    assert files[..|files|] == files;
  }

  method CheckTestRefs(refs: seq<string>, byPath: map<string, File>, rules: PathRules) returns (ok: bool)
    ensures ok <==> refs != [] && forall t :: t in refs ==> TestRefAdmissible(t, byPath, rules)
  {
    if refs == [] {
      return false;
    }
    for i := 0 to |refs|
      invariant forall j :: 0 <= j < i ==> TestRefAdmissible(refs[j], byPath, rules)
    {
      if !TestRefAdmissible(refs[i], byPath, rules) {
        return false;
      }
    }
    return true;
  }

  /** The entry loop with its `seen` set. */
  method NormalizeProposals(ps: seq<Proposal>, byPath: map<string, File>, rules: PathRules)
    returns (r: Result<seq<Scope>, Rejection>)
    ensures r.Ok? <==> AllAdmissible(ps, byPath, rules)
    ensures r.Ok? ==> r.value == NormalizeAll(ps, byPath, rules)
  {
    var seen: set<string> := {};
    var normalized: seq<Scope> := [];
    for i := 0 to |ps|
      invariant AllAdmissible(ps[..i], byPath, rules)
      invariant seen == set j | 0 <= j < i :: ps[j].path
      invariant |normalized| == i
      invariant forall j :: 0 <= j < i ==>
                  Admissible(ps[j], byPath, rules) && normalized[j] == Normalize(ps[j], byPath, rules)
    {
      var p := ps[i];
      if p.path in seen || !TargetAdmissible(p, byPath, rules) {
        return Err(BadEntry(p.path));
      }
      var testsOk := CheckTestRefs(p.testRefs, byPath, rules);
      if !testsOk || rules.blank(p.rationale) || p.uiImpact.None? {
        return Err(BadEntry(p.path));
      }
      seen := seen + {p.path};
      normalized := normalized + [Normalize(p, byPath, rules)];
    }
    assert ps[..|ps|] == ps;
    assert normalized == NormalizeAll(ps, byPath, rules);
    return Ok(normalized);
  }

  /** Accepts exactly the proposals that are individually admissible, mutually distinct, and whose
      tests cover the two-hop closure; what is accepted is the completed scope. */
  method ValidateCodeScope(ps: seq<Proposal>, graph: Graph, hasDocumentEvidence: bool, rules: PathRules)
    returns (r: Result<seq<Scope>, Rejection>, index: Index)
    ensures Represents(index.adjacency, graph.edges, PathByRef(graph.files))
    ensures index.roles == RoleByPath(graph.files)
    ensures r.Ok? <==>
              && hasDocumentEvidence && AllAdmissible(ps, FileByPath(graph.files), rules)
              && Closure(SurveyOf(index), NormalizeAll(ps, FileByPath(graph.files), rules), rules.ui).Ok?
    ensures r.Ok? ==>
              && Ok(r.value) == Closure(SurveyOf(index), NormalizeAll(ps, FileByPath(graph.files), rules), rules.ui)
              && DistinctTargets(r.value)
  {
    index := BuildIndex(graph);
    if !hasDocumentEvidence {
      return Err(NoDocumentEvidence), index;
    }
    var byPath := BuildFileMap(graph.files);
    var normalized := NormalizeProposals(ps, byPath, rules);
    if normalized.Err? {
      return Err(normalized.error), index;
    }
    var list := new ScopeList(normalized.value);
    var missing := list.CompleteScopes(index, rules.ui);
    if missing.Some? {
      return Err(UncoveredTests(missing.value)), index;
    }
    ClosureKeepsTargetsDistinct(SurveyOf(index), normalized.value, rules.ui);
    return Ok(list.scopes), index;
  }
}
