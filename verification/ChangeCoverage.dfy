/** Coverage of the executable lines an edit changed, failing closed. */
module ChangeCoverage {
  import opened Wrappers
  import opened Ordering
  import opened Sequences

  const MINIMUM_PERCENT: real := 80.0

  type LineMap = map<string, set<int>>

  datatype LineEntry = LineEntry(path: string, lines: seq<int>)

  /** Path safety and normalisation, and which paths are source files. */
  datatype PathRules = PathRules(safe: string -> bool, normal: string -> string, source: string -> bool)

  datatype Evidence = Evidence(refs: seq<string>, executable: seq<LineEntry>, covered: seq<LineEntry>, threshold: real)

  // ----- line maps -----------------------------------------------------------------------

  predicate EntryOk(e: LineEntry, rules: PathRules) {
    && rules.safe(e.path)
    && Unique(e.lines)
    && (forall i :: 0 <= i < |e.lines| ==> e.lines[i] >= 1)
  }

  predicate EntriesOk(entries: seq<LineEntry>, rules: PathRules) {
    && (forall i :: 0 <= i < |entries| ==> EntryOk(entries[i], rules))
    && (forall i, j :: 0 <= i < j < |entries| ==> rules.normal(entries[i].path) != rules.normal(entries[j].path))
  }

  function MapOf(entries: seq<LineEntry>, rules: PathRules): LineMap {
    if entries == [] then map[]
    else
      var last := entries[|entries| - 1];
      MapOf(entries[..|entries| - 1], rules)[rules.normal(last.path) := ToSet(last.lines)]
  }

  lemma {:induction false} MapOfLooksUp(entries: seq<LineEntry>, rules: PathRules, p: string)
    ensures p in MapOf(entries, rules) <==> exists i :: 0 <= i < |entries| && rules.normal(entries[i].path) == p
    ensures EntriesOk(entries, rules) ==>
              forall i :: 0 <= i < |entries| && rules.normal(entries[i].path) == p ==>
                p in MapOf(entries, rules) && MapOf(entries, rules)[p] == ToSet(entries[i].lines)
  {
    if entries != [] {
      MapOfLooksUp(entries[..|entries| - 1], rules, p);
    }
  }

  method BuildLineMap(entries: seq<LineEntry>, rules: PathRules) returns (r: Result<LineMap, string>)
    ensures r.Ok? <==> EntriesOk(entries, rules)
    ensures r.Ok? ==> r.value == MapOf(entries, rules)
  {
    var result: LineMap := map[];
    for i := 0 to |entries|
      invariant result == MapOf(entries[..i], rules)
      invariant EntriesOk(entries[..i], rules)
    {
      var e := entries[i];
      assert entries[..i + 1][..i] == entries[..i];
      MapOfLooksUp(entries[..i], rules, rules.normal(e.path));
      if !rules.safe(e.path) {
        return Err("unsafe path");
      }
      var path := rules.normal(e.path);
      if path in result {
        return Err("duplicate path");
      }
      var lines := ToSet(e.lines);
      UniqueCount(e.lines);
      if |lines| != |e.lines| || !(forall j :: 0 <= j < |e.lines| ==> e.lines[j] >= 1) {
        return Err("lines must be unique positive integers");
      }
      result := result[path := lines];
    }
    assert entries[..|entries|] == entries;
    return Ok(result);
  }

  // ----- evidence -----------------------------------------------------------------------------

  /** Every covered line is an executable line of a known file. */
  predicate CoveredIsExecutable(executable: LineMap, covered: LineMap) {
    forall p :: p in covered ==> p in executable && covered[p] <= executable[p]
  }

  predicate ValidEvidence(e: Evidence, rules: PathRules) {
    && MINIMUM_PERCENT <= e.threshold <= 100.0
    && e.refs != [] && Unique(e.refs) && (forall ref :: ref in e.refs ==> !Blank(ref))
    && EntriesOk(e.executable, rules) && EntriesOk(e.covered, rules)
    && CoveredIsExecutable(MapOf(e.executable, rules), MapOf(e.covered, rules))
  }

  // ----- one file --------------------------------------------------------------------------------

  datatype FileResult = FileResult(path: string, changed: set<int>, covered: set<int>, uncovered: set<int>)

  function ResultOf(path: string, changed: set<int>, executable: set<int>, covered: set<int>): (r: FileResult)
    ensures r.covered + r.uncovered == r.changed && r.covered !! r.uncovered
    ensures forall n :: n in r.changed <==> n in changed && n in executable
    ensures forall n :: n in r.covered <==> n in r.changed && n in covered
    ensures |r.covered| + |r.uncovered| == |r.changed|
  {
    var inBoth := changed * executable;
    var r := FileResult(path, inBoth, inBoth * covered, inBoth - covered);
    assert r.covered + r.uncovered == r.changed;
    r
  }

  function Get(m: LineMap, p: string): set<int> {
    if p in m then m[p] else {}
  }

  /** A file the evidence does not mention counts with all its changed lines. */
  function FileAgainst(p: string, changed: LineMap, executable: LineMap, covered: LineMap): FileResult {
    ResultOf(p, Get(changed, p), if p in executable then executable[p] else Get(changed, p), Get(covered, p))
  }

  function Files(paths: seq<string>, changed: LineMap, executable: LineMap, covered: LineMap): (r: seq<FileResult>)
    ensures |r| == |paths|
    ensures forall i :: 0 <= i < |paths| ==> r[i] == FileAgainst(paths[i], changed, executable, covered)
  {
    if paths == [] then []
    else
      Files(paths[..|paths| - 1], changed, executable, covered)
      + [FileAgainst(paths[|paths| - 1], changed, executable, covered)]
  }

  function ChangedCount(files: seq<FileResult>): nat {
    if files == [] then 0 else ChangedCount(files[..|files| - 1]) + |files[|files| - 1].changed|
  }

  function CoveredCount(files: seq<FileResult>): nat {
    if files == [] then 0 else CoveredCount(files[..|files| - 1]) + |files[|files| - 1].covered|
  }

  // ----- the report ---------------------------------------------------------------------------------

  datatype Status = NotRequired | Missing | Passed | Failed

  datatype Blocker =
    | NoEvidence
    | FileNotInEvidence(path: string)
    | BelowThreshold
    | UncoveredLines(path: string, lines: set<int>)

  datatype Report = Report(status: Status, threshold: real, files: seq<FileResult>, percent: real, blockers: seq<Blocker>)

  function Percent(covered: nat, changed: nat): real {
    if changed == 0 then 100.0 else covered as real * 100.0 / changed as real
  }

  predicate HasLines(p: string, changed: LineMap, rules: PathRules) {
    rules.source(p) && Get(changed, p) != {}
  }

  function WithLines(changedPaths: seq<string>, changed: LineMap, rules: PathRules): seq<string> {
    if changedPaths == [] then []
    else
      var last := changedPaths[|changedPaths| - 1];
      WithLines(changedPaths[..|changedPaths| - 1], changed, rules) + if HasLines(last, changed, rules) then [last] else []
  }

  /** The changed source files that have changed lines, in order; a path listed twice counts twice. */
  function SourcesWithLines(changedPaths: seq<string>, changed: LineMap, rules: PathRules): seq<string> {
    SortedList(WithLines(changedPaths, changed, rules))
  }

  lemma {:induction false} WithLinesCount(changedPaths: seq<string>, changed: LineMap, rules: PathRules, p: string)
    ensures multiset(WithLines(changedPaths, changed, rules))[p] ==
            if HasLines(p, changed, rules) then multiset(changedPaths)[p] else 0
  {
    if changedPaths != [] {
      var front, last := changedPaths[..|changedPaths| - 1], changedPaths[|changedPaths| - 1];
      WithLinesCount(front, changed, rules, p);
      assert changedPaths == front + [last];
    }
  }

  // The files judged are the changed source files with changed lines, in order and as often as listed.
  lemma SourcesAre(changedPaths: seq<string>, changed: LineMap, rules: PathRules)
    ensures Ascending(SourcesWithLines(changedPaths, changed, rules))
    ensures forall p :: multiset(SourcesWithLines(changedPaths, changed, rules))[p] ==
                        if HasLines(p, changed, rules) then multiset(changedPaths)[p] else 0
  {
    SortedListAscends(WithLines(changedPaths, changed, rules));
    forall p {
      WithLinesCount(changedPaths, changed, rules, p);
    }
  }

  method FileBlockers(paths: seq<string>, executable: LineMap) returns (blockers: seq<Blocker>)
    ensures blockers == [] <==> forall p :: p in paths ==> p in executable
    ensures forall p :: FileNotInEvidence(p) in blockers <==> p in paths && p !in executable
    ensures forall b :: b in blockers ==> b.FileNotInEvidence?
  {
    blockers := [];
    for i := 0 to |paths|
      invariant blockers == [] <==> forall j :: 0 <= j < i ==> paths[j] in executable
      invariant forall p :: FileNotInEvidence(p) in blockers <==> p in paths[..i] && p !in executable
      invariant forall b :: b in blockers ==> b.FileNotInEvidence?
    {
      assert paths[..i + 1] == paths[..i] + [paths[i]];
      if paths[i] !in executable {
        blockers := blockers + [FileNotInEvidence(paths[i])];
      }
    }
    assert paths[..|paths|] == paths;
  }

  method LineBlockers(files: seq<FileResult>) returns (blockers: seq<Blocker>)
    ensures forall f :: f in files && f.uncovered != {} ==> UncoveredLines(f.path, f.uncovered) in blockers
    ensures forall b :: b in blockers ==> b.UncoveredLines?
  {
    blockers := [];
    for i := 0 to |files|
      invariant forall j :: 0 <= j < i && files[j].uncovered != {} ==> UncoveredLines(files[j].path, files[j].uncovered) in blockers
      invariant forall b :: b in blockers ==> b.UncoveredLines?
    {
      if files[i].uncovered != {} {
        blockers := blockers + [UncoveredLines(files[i].path, files[i].uncovered)];
      }
    }
  }

  /** What the evidence must show for the changed lines to pass. */
  predicate Sufficient(paths: seq<string>, changed: LineMap, executable: LineMap, covered: LineMap, threshold: real) {
    var files := Files(paths, changed, executable, covered);
    && (forall p :: p in paths ==> p in executable)
    && Meets(CoveredCount(files), ChangedCount(files), threshold)
  }

  predicate Meets(covered: nat, changed: nat, threshold: real) {
    covered as real * 100.0 >= threshold * changed as real
  }

  /** Judges changed source files against evidence. */
  method Judge(paths: seq<string>, changed: LineMap, executable: LineMap, covered: LineMap, threshold: real)
    returns (report: Report)
    requires threshold <= 100.0
    ensures report.status == if Sufficient(paths, changed, executable, covered, threshold) then Passed else Failed
    ensures report.threshold == threshold && report.files == Files(paths, changed, executable, covered)
    ensures report.percent == Percent(CoveredCount(report.files), ChangedCount(report.files))
    ensures report.status.Failed? <==> report.blockers != []
    ensures forall p :: FileNotInEvidence(p) in report.blockers <==> p in paths && p !in executable
    ensures BelowThreshold in report.blockers <==> report.percent < threshold
    ensures report.percent < threshold ==>
              forall f :: f in report.files && f.uncovered != {} ==> UncoveredLines(f.path, f.uncovered) in report.blockers
  {
    var files := Files(paths, changed, executable, covered);
    var percent := Percent(CoveredCount(files), ChangedCount(files));
    PercentAgainstThreshold(CoveredCount(files), ChangedCount(files), threshold);
    var missing := FileBlockers(Sorted(ToSet(paths)), executable);
    var blockers := missing;
    if percent < threshold {
      var lines := LineBlockers(files);
      blockers := missing + [BelowThreshold] + lines;
    }
    report := Report(if blockers == [] then Passed else Failed, threshold, files, percent, blockers);
  }

  /** What an evaluation says of the changed source files, whatever else it reports. */
  predicate JudgesCorrectly(report: Report, paths: seq<string>, changed: LineMap, evidence: Option<Evidence>,
                            rules: PathRules)
  {
    && (report.status.NotRequired? <==> paths == [])
    && (report.status.Missing? <==> paths != [] && evidence.None?)
    && (report.status.Passed? <==>
          && paths != [] && evidence.Some?
          && Sufficient(paths, changed, MapOf(evidence.value.executable, rules),
                        MapOf(evidence.value.covered, rules), evidence.value.threshold))
    && (report.blockers != [] <==> report.status.Failed? || report.status.Missing?)
    && report.threshold == (if evidence.Some? then evidence.value.threshold else MINIMUM_PERCENT)
    && report.percent == Percent(CoveredCount(report.files), ChangedCount(report.files))
    && report.files == (if evidence.None? then Files(paths, changed, map[], map[])
                        else Files(paths, changed, MapOf(evidence.value.executable, rules), MapOf(evidence.value.covered, rules)))
  }

  method Evaluate(changedPaths: seq<string>, changed: LineMap, evidence: Option<Evidence>, rules: PathRules)
    returns (report: Report)
    requires evidence.Some? ==> ValidEvidence(evidence.value, rules)
    ensures JudgesCorrectly(report, SourcesWithLines(changedPaths, changed, rules), changed, evidence, rules)
  {
    var paths := SourcesWithLines(changedPaths, changed, rules);
    if paths == [] {
      var threshold := if evidence.Some? then evidence.value.threshold else MINIMUM_PERCENT;
      report := Report(NotRequired, threshold, [], Percent(0, 0), []);
    } else if evidence.None? {
      var files := Files(paths, changed, map[], map[]);
      report := Report(Missing, MINIMUM_PERCENT, files, Percent(CoveredCount(files), ChangedCount(files)), [NoEvidence]);
    } else {
      report := Judge(paths, changed, MapOf(evidence.value.executable, rules), MapOf(evidence.value.covered, rules),
                      evidence.value.threshold);
    }
  }

  lemma RatioCompare(c: real, n: real, t: real)
    requires n > 0.0
    ensures c / n >= t <==> c >= t * n
    ensures c / n <= t <==> c <= t * n
  {
    assert c == (c / n) * n;
  }

  lemma PercentAgainstThreshold(covered: nat, changed: nat, threshold: real)
    requires threshold <= 100.0
    ensures Percent(covered, changed) >= threshold <==> Meets(covered, changed, threshold)
  {
    if changed > 0 {
      RatioCompare(covered as real * 100.0, changed as real, threshold);
    }
  }

  // ----- conservation and monotonicity ------------------------------------------------------------------

  lemma {:induction false} CountsAreBounded(files: seq<FileResult>)
    requires forall i :: 0 <= i < |files| ==> files[i].covered <= files[i].changed
    ensures CoveredCount(files) <= ChangedCount(files)
    ensures 0.0 <= Percent(CoveredCount(files), ChangedCount(files)) <= 100.0
  {
    if files != [] {
      CountsAreBounded(files[..|files| - 1]);
      CardinalityMonotone(files[|files| - 1].covered, files[|files| - 1].changed);
    }
    if ChangedCount(files) > 0 {
      RatioCompare(CoveredCount(files) as real * 100.0, ChangedCount(files) as real, 100.0);
      RatioCompare(CoveredCount(files) as real * 100.0, ChangedCount(files) as real, 0.0);
    }
  }

  lemma {:induction false} CardinalityMonotone<T>(a: set<T>, b: set<T>)
    requires a <= b
    ensures |a| <= |b|
    decreases |a|
  {
    if a != {} {
      var x :| x in a;
      CardinalityMonotone(a - {x}, b - {x});
    }
  }

  predicate CoversMore(covered: LineMap, more: LineMap) {
    forall p :: p in covered ==> p in more && covered[p] <= more[p]
  }

  lemma FileCoversMore(p: string, changed: LineMap, executable: LineMap, covered: LineMap, more: LineMap)
    requires CoversMore(covered, more)
    ensures FileAgainst(p, changed, executable, covered).changed == FileAgainst(p, changed, executable, more).changed
    ensures |FileAgainst(p, changed, executable, covered).covered| <= |FileAgainst(p, changed, executable, more).covered|
  {
    CardinalityMonotone(FileAgainst(p, changed, executable, covered).covered,
                        FileAgainst(p, changed, executable, more).covered);
  }

  lemma {:induction false} MoreCoverageCountsMore(paths: seq<string>, changed: LineMap, executable: LineMap,
                                                  covered: LineMap, more: LineMap)
    requires CoversMore(covered, more)
    ensures ChangedCount(Files(paths, changed, executable, covered)) == ChangedCount(Files(paths, changed, executable, more))
    ensures CoveredCount(Files(paths, changed, executable, covered)) <= CoveredCount(Files(paths, changed, executable, more))
  {
    if paths != [] {
      MoreCoverageCountsMore(paths[..|paths| - 1], changed, executable, covered, more);
      FileCoversMore(paths[|paths| - 1], changed, executable, covered, more);
      LastFile(paths, changed, executable, covered);
      LastFile(paths, changed, executable, more);
    }
  }

  lemma LastFile(paths: seq<string>, changed: LineMap, executable: LineMap, covered: LineMap)
    requires paths != []
    ensures
      var files := Files(paths, changed, executable, covered);
      var front := Files(paths[..|paths| - 1], changed, executable, covered);
      var last := FileAgainst(paths[|paths| - 1], changed, executable, covered);
      && ChangedCount(files) == ChangedCount(front) + |last.changed|
      && CoveredCount(files) == CoveredCount(front) + |last.covered|
  {
    var files := Files(paths, changed, executable, covered);
    assert files[..|files| - 1] == Files(paths[..|paths| - 1], changed, executable, covered);
  }

  // Covering more lines never turns a pass into a failure.
  lemma MoreCoverageStillPasses(paths: seq<string>, changed: LineMap, executable: LineMap,
                                covered: LineMap, more: LineMap, threshold: real)
    requires Sufficient(paths, changed, executable, covered, threshold) && CoversMore(covered, more)
    ensures Sufficient(paths, changed, executable, more, threshold)
  {
    MoreCoverageCountsMore(paths, changed, executable, covered, more);
    MeetsMonotone(CoveredCount(Files(paths, changed, executable, covered)),
                  CoveredCount(Files(paths, changed, executable, more)),
                  ChangedCount(Files(paths, changed, executable, covered)), threshold);
  }

  lemma MeetsMonotone(covered: nat, more: nat, changed: nat, threshold: real)
    requires covered <= more && Meets(covered, changed, threshold)
    ensures Meets(more, changed, threshold)
  {
  }
}
