/** Readers of coverage tool reports, as producers of valid changed-line evidence. */
module CoverageReport {
  import opened Wrappers
  import opened Ordering
  import opened Sequences
  import opened ChangeCoverage

  /** A report read into executable and covered lines by file. */
  datatype Coverage = Coverage(executable: LineMap, covered: LineMap)

  // ----- LCOV ---------------------------------------------------------------------------

  /** One LCOV line.  A source record outside the workspace has no path, and a data record
      that does not parse has no numbers. */
  datatype LcovLine =
    | SourceFile(path: Option<string>)
    | Data(hit: Option<Hit>)
    | OtherLine

  datatype Hit = Hit(line: int, count: int)

  /** The file open after reading `lines`. */
  function OpenFile(lines: seq<LcovLine>): Option<string> {
    if lines == [] then None
    else if lines[|lines| - 1].SourceFile? then lines[|lines| - 1].path
    else OpenFile(lines[..|lines| - 1])
  }

  /** Data record `i` speaks for file `p`: it is the file open where the record stands. */
  predicate Speaks(lines: seq<LcovLine>, i: nat, p: string) {
    i < |lines| && lines[i].Data? && lines[i].hit.Some? && OpenFile(lines[..i]) == Some(p)
  }

  predicate LineReadable(lines: seq<LcovLine>, i: nat)
    requires i < |lines|
  {
    match lines[i]
    case SourceFile(path) => path.Some?
    case Data(hit) => OpenFile(lines[..i]).Some? ==> hit.Some?
    case OtherLine => true
  }

  predicate Readable(lines: seq<LcovLine>) {
    forall i :: 0 <= i < |lines| ==> LineReadable(lines, i)
  }

  predicate NamesFile(lines: seq<LcovLine>, p: string) {
    exists i :: 0 <= i < |lines| && lines[i] == SourceFile(Some(p))
  }

  predicate SaysExecutable(lines: seq<LcovLine>, p: string, n: int) {
    exists i :: 0 <= i < |lines| && Speaks(lines, i, p) && lines[i].hit.value.line == n
  }

  predicate SaysCovered(lines: seq<LcovLine>, p: string, n: int) {
    exists i :: 0 <= i < |lines| && Speaks(lines, i, p) && lines[i].hit.value.line == n && lines[i].hit.value.count > 0
  }

  /** The coverage a readable LCOV report states. */
  ghost predicate States(c: Coverage, lines: seq<LcovLine>) {
    && (forall p :: p in c.executable <==> NamesFile(lines, p))
    && c.covered.Keys == c.executable.Keys
    && (forall p, n :: p in c.executable ==> (n in c.executable[p] <==> SaysExecutable(lines, p, n)))
    && (forall p, n :: p in c.covered ==> (n in c.covered[p] <==> SaysCovered(lines, p, n)))
  }

  lemma SpeaksStep(lines: seq<LcovLine>, x: LcovLine)
    ensures forall i: nat, p :: i < |lines| ==> (Speaks(lines + [x], i, p) <==> Speaks(lines, i, p))
    ensures forall p :: Speaks(lines + [x], |lines|, p) <==> x.Data? && x.hit.Some? && OpenFile(lines) == Some(p)
  {
    assert forall i :: 0 <= i <= |lines| ==> (lines + [x])[..i] == lines[..i];
    assert lines[..|lines|] == lines;
  }

  lemma SaysStep(lines: seq<LcovLine>, x: LcovLine, p: string, n: int)
    ensures SaysExecutable(lines + [x], p, n) <==>
              SaysExecutable(lines, p, n) || (Speaks(lines + [x], |lines|, p) && x.hit.value.line == n)
    ensures SaysCovered(lines + [x], p, n) <==>
              SaysCovered(lines, p, n) || (Speaks(lines + [x], |lines|, p) && x.hit.value.line == n && x.hit.value.count > 0)
  {
    var all := lines + [x];
    SpeaksStep(lines, x);
    assert all[|lines|] == x;
    if SaysExecutable(lines, p, n) {
      var i :| 0 <= i < |lines| && Speaks(lines, i, p) && lines[i].hit.value.line == n;
      assert Speaks(all, i, p) && all[i] == lines[i];
    }
    if SaysCovered(lines, p, n) {
      var i :| 0 <= i < |lines| && Speaks(lines, i, p) && lines[i].hit.value.line == n && lines[i].hit.value.count > 0;
      assert Speaks(all, i, p) && all[i] == lines[i];
    }
  }

  lemma NamesStep(lines: seq<LcovLine>, x: LcovLine, p: string)
    ensures NamesFile(lines + [x], p) <==> NamesFile(lines, p) || x == SourceFile(Some(p))
  {
    var all := lines + [x];
    if NamesFile(lines, p) {
      var i :| 0 <= i < |lines| && lines[i] == SourceFile(Some(p));
      assert all[i] == SourceFile(Some(p));
    }
    assert all[|lines|] == x;
  }

  /** What `c` has to say about one file for it to state what `lines` say. */
  ghost predicate StatesFile(c: Coverage, lines: seq<LcovLine>, p: string) {
    && (p in c.executable <==> NamesFile(lines, p))
    && (p in c.covered <==> p in c.executable)
    && (forall n :: n in Get(c.executable, p) <==> SaysExecutable(lines, p, n))
    && (forall n :: n in Get(c.covered, p) <==> SaysCovered(lines, p, n))
  }

  lemma StatesByFile(c: Coverage, lines: seq<LcovLine>)
    ensures States(c, lines) <==> forall p :: StatesFile(c, lines, p)
  {
    forall p, n | !NamesFile(lines, p) ensures !SaysExecutable(lines, p, n) && !SaysCovered(lines, p, n) {
      UnnamedSaysNothing(lines, p);
    }
    if States(c, lines) {
      forall p ensures StatesFile(c, lines, p) {
      }
    }
    if forall p :: StatesFile(c, lines, p) {
      assert forall p :: p in c.covered.Keys <==> p in c.executable.Keys by {
        forall p ensures p in c.covered.Keys <==> p in c.executable.Keys {
          assert StatesFile(c, lines, p);
        }
      }
      forall p ensures p in c.executable <==> NamesFile(lines, p) {
        assert StatesFile(c, lines, p);
      }
      forall p, n | p in c.executable ensures n in c.executable[p] <==> SaysExecutable(lines, p, n) {
        assert StatesFile(c, lines, p);
      }
      forall p, n | p in c.covered ensures n in c.covered[p] <==> SaysCovered(lines, p, n) {
        assert StatesFile(c, lines, p);
      }
    }
  }

  /** What one line does to the coverage read so far. */
  ghost predicate TakenIn(c: Coverage, lines: seq<LcovLine>, x: LcovLine, c': Coverage) {
    match x
    case OtherLine => c' == c
    case SourceFile(None) => false
    case SourceFile(Some(p)) => c' == Opened(c, p)
    case Data(hit) =>
      if OpenFile(lines).None? then c' == c
      else hit.Some? && OpenFile(lines).value in c.executable && c' == Hits(c, OpenFile(lines).value, hit.value)
  }

  lemma FileStep(c: Coverage, lines: seq<LcovLine>, x: LcovLine, c': Coverage, p: string)
    requires StatesFile(c, lines, p) && TakenIn(c, lines, x, c')
    requires OpenFile(lines) == Some(p) ==> p in c.executable
    ensures StatesFile(c', lines + [x], p)
  {
    SpeaksStep(lines, x);
    NamesStep(lines, x, p);
    forall n
      ensures n in Get(c'.executable, p) <==> SaysExecutable(lines + [x], p, n)
      ensures n in Get(c'.covered, p) <==> SaysCovered(lines + [x], p, n)
    {
      SaysStep(lines, x, p, n);
    }
  }

  lemma StatesStep(c: Coverage, lines: seq<LcovLine>, x: LcovLine, c': Coverage)
    requires States(c, lines) && TakenIn(c, lines, x, c')
    requires OpenFile(lines).Some? ==> OpenFile(lines).value in c.executable
    ensures States(c', lines + [x])
  {
    StatesByFile(c, lines);
    StatesByFile(c', lines + [x]);
    forall p ensures StatesFile(c', lines + [x], p) {
      FileStep(c, lines, x, c', p);
    }
  }

  lemma {:induction false} OpenFileIsNamed(lines: seq<LcovLine>)
    ensures OpenFile(lines).Some? ==> NamesFile(lines, OpenFile(lines).value)
  {
    if lines != [] {
      var last := |lines| - 1;
      if lines[last].SourceFile? {
        assert OpenFile(lines).Some? ==> lines[last] == SourceFile(Some(OpenFile(lines).value));
      } else {
        OpenFileIsNamed(lines[..last]);
      }
    }
  }

  lemma UnnamedSaysNothing(lines: seq<LcovLine>, p: string)
    requires !NamesFile(lines, p)
    ensures forall i :: 0 <= i < |lines| ==> !Speaks(lines, i, p)
  {
    forall i | 0 <= i < |lines| ensures !Speaks(lines, i, p) {
      OpenFileIsNamed(lines[..i]);
    }
  }

  /** `setdefault` on both dictionaries. */
  function Opened(c: Coverage, p: string): Coverage {
    Coverage(if p in c.executable then c.executable else c.executable[p := {}],
             if p in c.covered then c.covered else c.covered[p := {}])
  }

  function Hits(c: Coverage, p: string, h: Hit): Coverage
    requires p in c.executable
  {
    Coverage(c.executable[p := c.executable[p] + {h.line}],
             if h.count > 0 then c.covered[p := Get(c.covered, p) + {h.line}] else c.covered)
  }

  ghost predicate Reading(c: Coverage, current: Option<string>, lines: seq<LcovLine>) {
    States(c, lines) && current == OpenFile(lines) && (current.Some? ==> current.value in c.executable)
  }

  lemma ReadingStep(c: Coverage, current: Option<string>, lines: seq<LcovLine>, x: LcovLine, c': Coverage, current': Option<string>)
    requires Reading(c, current, lines) && TakenIn(c, lines, x, c')
    requires current' == (if x.SourceFile? then x.path else current) && (current'.Some? ==> current'.value in c'.executable)
    ensures Reading(c', current', lines + [x])
  {
    StatesStep(c, lines, x, c');
    assert (lines + [x])[..|lines|] == lines;
  }

  predicate TakesLine(line: LcovLine, current: Option<string>) {
    line != SourceFile(None) && (line == Data(None) ==> current.None?)
  }

  /** Takes one line in; `lines` are the ones before it. */
  method TakeLine(c: Coverage, current: Option<string>, line: LcovLine, ghost lines: seq<LcovLine>)
    returns (r: Result<(Coverage, Option<string>), string>)
    requires current == OpenFile(lines) && (current.Some? ==> current.value in c.executable)
    ensures r.Err? <==> !TakesLine(line, current)
    ensures r.Ok? ==> TakenIn(c, lines, line, r.value.0)
    ensures r.Ok? ==> r.value.1 == if line.SourceFile? then line.path else current
    ensures r.Ok? && r.value.1.Some? ==> r.value.1.value in r.value.0.executable
  {
    if line.SourceFile? {
      if line.path.None? {
        return Err("source file outside the workspace");
      }
      return Ok((Opened(c, line.path.value), line.path));
    }
    if line.Data? && current.Some? {
      if line.hit.None? {
        return Err("malformed data record");
      }
      return Ok((Hits(c, current.value, line.hit.value), current));
    }
    return Ok((c, current));
  }

  method ReadLcov(lines: seq<LcovLine>) returns (r: Result<Coverage, string>)
    ensures r.Ok? <==> Readable(lines)
    ensures r.Ok? ==> States(r.value, lines) && CoveredIsExecutable(r.value.executable, r.value.covered)
  {
    var c := Coverage(map[], map[]);
    var current: Option<string> := None;
    for i := 0 to |lines|
      invariant Reading(c, current, lines[..i])
      invariant forall j :: 0 <= j < i ==> LineReadable(lines, j)
    {
      OpenFileStep(lines, i);
      var taken := TakeLine(c, current, lines[i], lines[..i]);
      if taken.Err? {
        assert !LineReadable(lines, i);
        return Err(taken.error);
      }
      ReadingStep(c, current, lines[..i], lines[i], taken.value.0, taken.value.1);
      c, current := taken.value.0, taken.value.1;
    }
    assert lines[..|lines|] == lines;
    ReadingEnds(c, current, lines);
    return Ok(c);
  }

  lemma ReadingEnds(c: Coverage, current: Option<string>, lines: seq<LcovLine>)
    requires Reading(c, current, lines)
    ensures CoveredIsExecutable(c.executable, c.covered)
  {
    StatedIsConsistent(c, lines);
  }

  lemma OpenFileStep(lines: seq<LcovLine>, i: nat)
    requires i < |lines|
    ensures lines[..i + 1] == lines[..i] + [lines[i]]
    ensures LineReadable(lines, i) <==> TakesLine(lines[i], OpenFile(lines[..i]))
    ensures OpenFile(lines[..i + 1]) == if lines[i].SourceFile? then lines[i].path else OpenFile(lines[..i])
  {
    assert lines[..i + 1][..i] == lines[..i];
  }

  // A covered line is an executable line, in every report that can be read.
  lemma StatedIsConsistent(c: Coverage, lines: seq<LcovLine>)
    requires States(c, lines)
    ensures CoveredIsExecutable(c.executable, c.covered)
  {
    forall p | p in c.covered ensures p in c.executable && c.covered[p] <= c.executable[p] {
      forall n | n in c.covered[p] ensures n in c.executable[p] {
        assert SaysCovered(lines, p, n);
        assert SaysExecutable(lines, p, n);
      }
    }
  }

  // ----- coverage.py ---------------------------------------------------------------------------

  /** One entry of the report's files: not an object, not readable, or a file's lines. */
  datatype PyRecord =
    | NotAnObject
    | Unreadable
    | PyRecord(path: string, executed: set<int>, missing: set<int>)

  /** Record `i` is the last one of file `p`. */
  predicate LastRecord(records: seq<PyRecord>, i: nat, p: string) {
    && i < |records| && records[i].PyRecord? && records[i].path == p
    && (forall j :: i < j < |records| && records[j].PyRecord? ==> records[j].path != p)
  }

  predicate Recorded(records: seq<PyRecord>, p: string) {
    exists i :: 0 <= i < |records| && LastRecord(records, i, p)
  }

  /** The last record of a file counts, and a file without one is not covered. */
  ghost predicate PyStates(c: Coverage, records: seq<PyRecord>) {
    && c.executable.Keys == c.covered.Keys
    && (forall p :: p in c.executable <==> Recorded(records, p))
    && (forall i, p :: 0 <= i < |records| && LastRecord(records, i, p) && p in c.executable ==>
          c.executable[p] == records[i].executed + records[i].missing && c.covered[p] == records[i].executed)
  }

  lemma PyStatesStep(c: Coverage, records: seq<PyRecord>, r: PyRecord, c': Coverage)
    requires PyStates(c, records)
    requires match r
             case NotAnObject => c' == c
             case Unreadable => false
             case PyRecord(p, executed, missing) =>
               c' == Coverage(c.executable[p := executed + missing], c.covered[p := executed])
    ensures PyStates(c', records + [r])
  {
    var all := records + [r];
    forall p, i | 0 <= i < |records|
      ensures LastRecord(all, i, p) <==> LastRecord(records, i, p) && !(r.PyRecord? && r.path == p)
    {
      assert all[i] == records[i] && all[|records|] == r;
      assert forall j :: i < j < |all| ==> all[j] == if j < |records| then records[j] else r;
    }
    assert all[|records|] == r;
    forall p ensures LastRecord(all, |records|, p) <==> r.PyRecord? && r.path == p {
    }
    forall p ensures Recorded(all, p) <==> Recorded(records, p) || (r.PyRecord? && r.path == p) {
      if r.PyRecord? && r.path == p {
        assert LastRecord(all, |records|, p);
      } else if Recorded(records, p) {
        var i :| 0 <= i < |records| && LastRecord(records, i, p);
        assert LastRecord(all, i, p);
      }
    }
  }

  method ReadCoveragePy(records: seq<PyRecord>) returns (r: Result<Coverage, string>)
    ensures r.Ok? <==> Unreadable !in records
    ensures r.Ok? ==> PyStates(r.value, records) && CoveredIsExecutable(r.value.executable, r.value.covered)
  {
    var c := Coverage(map[], map[]);
    for i := 0 to |records|
      invariant PyStates(c, records[..i])
      invariant CoveredIsExecutable(c.executable, c.covered)
      invariant Unreadable !in records[..i]
    {
      var record := records[i];
      ghost var before := c;
      assert records[..i + 1] == records[..i] + [record];
      if record.Unreadable? {
        return Err("path outside the workspace or a line that is no number");
      }
      if record.PyRecord? {
        c := Coverage(c.executable[record.path := record.executed + record.missing],
                      c.covered[record.path := record.executed]);
      }
      PyStatesStep(before, records[..i], record, c);
    }
    assert records[..|records|] == records;
    return Ok(c);
  }

  // ----- handing the lines over as evidence ------------------------------------------------------

  function Least(s: set<int>): (m: int)
    requires s != {}
    ensures m in s && forall x :: x in s ==> m <= x
  {
    LeastExists(s);
    var m :| m in s && forall x :: x in s ==> m <= x;
    m
  }

  lemma {:induction false} LeastExists(s: set<int>)
    requires s != {}
    ensures exists m :: m in s && forall x :: x in s ==> m <= x
    decreases |s|
  {
    var x := Pick(s);
    if s == {x} {
      assert x in s && forall y :: y in s ==> x <= y;
    } else {
      var rest := s - {x};
      LeastExists(rest);
      var m :| m in rest && forall y :: y in rest ==> m <= y;
      var least := if m <= x then m else x;
      assert forall y :: y in s ==> y == x || y in rest;
      assert least in s && forall y :: y in s ==> least <= y;
    }
  }

  function SortedLines(s: set<int>): seq<int>
    decreases |s|
  {
    if s == {} then []
    else
      var m := Least(s);
      [m] + SortedLines(s - {m})
  }

  predicate Increasing(r: seq<int>) {
    forall i, j :: 0 <= i < j < |r| ==> r[i] < r[j]
  }

  lemma Prepended(m: int, rest: seq<int>, s: set<int>)
    requires m in s && (forall n :: n in s ==> m <= n) && ToSet(rest) == s - {m} && Increasing(rest)
    ensures Increasing([m] + rest) && ToSet([m] + rest) == s
  {
    assert forall i :: 0 <= i < |rest| ==> rest[i] in ToSet(rest);
    assert ToSet([m] + rest) == {m} + ToSet(rest);
  }

  lemma {:induction false} SortedLinesList(s: set<int>)
    ensures ToSet(SortedLines(s)) == s && Increasing(SortedLines(s))
    decreases |s|
  {
    if s != {} {
      var m := Least(s);
      SortedLinesList(s - {m});
      Prepended(m, SortedLines(s - {m}), s);
    }
  }

  /** `_line_tuples`: files in order, each with its sorted lines. */
  function Entries(paths: seq<string>, m: LineMap): (r: seq<LineEntry>)
    requires forall p :: p in paths ==> p in m
    ensures |r| == |paths|
    ensures forall i :: 0 <= i < |paths| ==> r[i] == LineEntry(paths[i], SortedLines(m[paths[i]]))
  {
    if paths == [] then []
    else
      Entries(paths[..|paths| - 1], m) + [LineEntry(paths[|paths| - 1], SortedLines(m[paths[|paths| - 1]]))]
  }

  function LineTuples(m: LineMap): seq<LineEntry> {
    Entries(Sorted(m.Keys), m)
  }

  /** Paths a reader produces are safe and already normal. */
  predicate RepositoryPaths(m: LineMap, rules: PathRules) {
    forall p :: p in m ==> rules.safe(p) && rules.normal(p) == p
  }

  predicate PositiveLines(m: LineMap) {
    forall p, n :: p in m && n in m[p] ==> n >= 1
  }

  lemma SortedLinesOk(p: string, s: set<int>, rules: PathRules)
    requires rules.safe(p)
    ensures EntryOk(LineEntry(p, SortedLines(s)), rules) <==> forall n :: n in s ==> n >= 1
  {
    var r := SortedLines(s);
    SortedLinesList(s);
    assert forall i :: 0 <= i < |r| ==> r[i] in ToSet(r);
    assert forall n :: n in s ==> n in ToSet(r);
  }

  lemma DistinctTuples(m: LineMap, rules: PathRules)
    requires RepositoryPaths(m, rules)
    ensures forall i :: 0 <= i < |LineTuples(m)| ==> LineTuples(m)[i].path in m
    ensures forall i, j :: 0 <= i < j < |LineTuples(m)| ==>
              rules.normal(LineTuples(m)[i].path) != rules.normal(LineTuples(m)[j].path)
  {
    var paths, entries := Sorted(m.Keys), LineTuples(m);
    SortedIsStrict(m.Keys);
    forall i | 0 <= i < |entries| ensures entries[i].path == paths[i] && paths[i] in m {
      assert paths[i] in paths;
    }
  }

  lemma TupleOf(m: LineMap, p: string) returns (i: nat)
    requires p in m
    ensures i < |LineTuples(m)| && LineTuples(m)[i] == LineEntry(p, SortedLines(m[p]))
  {
    var paths := Sorted(m.Keys);
    assert p in paths;
    i :| 0 <= i < |paths| && paths[i] == p;
  }

  lemma TuplesAccepted(m: LineMap, rules: PathRules)
    requires RepositoryPaths(m, rules)
    ensures EntriesOk(LineTuples(m), rules) <==> PositiveLines(m)
  {
    var entries := LineTuples(m);
    DistinctTuples(m, rules);
    if EntriesOk(entries, rules) {
      forall p, n | p in m && n in m[p] ensures n >= 1 {
        var i := TupleOf(m, p);
        SortedLinesOk(p, m[p], rules);
      }
    }
    if PositiveLines(m) {
      forall i | 0 <= i < |entries| ensures EntryOk(entries[i], rules) {
        var p := entries[i].path;
        SortedLinesOk(p, m[p], rules);
      }
    }
  }

  // Reading back what was handed over gives the same lines.
  lemma TuplesRoundTrip(m: LineMap, rules: PathRules)
    requires RepositoryPaths(m, rules) && PositiveLines(m)
    ensures MapOf(LineTuples(m), rules) == m
  {
    var entries := LineTuples(m);
    TuplesAccepted(m, rules);
    DistinctTuples(m, rules);
    forall p ensures p in MapOf(entries, rules) <==> p in m {
      MapOfLooksUp(entries, rules, p);
      if p in m {
        var i := TupleOf(m, p);
      }
    }
    forall p | p in m ensures MapOf(entries, rules)[p] == m[p] {
      MapOfLooksUp(entries, rules, p);
      var i := TupleOf(m, p);
      SortedLinesList(m[p]);
      assert rules.normal(entries[i].path) == p && ToSet(entries[i].lines) == m[p];
    }
  }

  lemma CoveredLinesArePositive(c: Coverage)
    requires CoveredIsExecutable(c.executable, c.covered) && PositiveLines(c.executable)
    ensures PositiveLines(c.covered)
  {
    forall p, n | p in c.covered && n in c.covered[p] ensures n >= 1 {
      assert n in c.executable[p];
    }
  }

  lemma EvidenceOk(e: Evidence, rules: PathRules)
    requires |e.refs| == 1 && !Blank(e.refs[0]) && MINIMUM_PERCENT <= e.threshold <= 100.0
    ensures ValidEvidence(e, rules) <==>
              EntriesOk(e.executable, rules) && EntriesOk(e.covered, rules)
              && CoveredIsExecutable(MapOf(e.executable, rules), MapOf(e.covered, rules))
  {
  }

  // A report that was read makes valid evidence exactly when its line numbers are positive and the
  // reference it is filed under is not blank.
  lemma ReadersProduceEvidence(c: Coverage, reference: string, threshold: real, rules: PathRules)
    requires CoveredIsExecutable(c.executable, c.covered)
    requires RepositoryPaths(c.executable, rules) && MINIMUM_PERCENT <= threshold <= 100.0
    ensures ValidEvidence(Evidence([reference], LineTuples(c.executable), LineTuples(c.covered), threshold), rules)
            <==> PositiveLines(c.executable) && !Blank(reference)
  {
    var e := Evidence([reference], LineTuples(c.executable), LineTuples(c.covered), threshold);
    assert e.refs[0] in e.refs;
    if !Blank(reference) {
      EvidenceOk(e, rules);
      TuplesAccepted(c.executable, rules);
      if PositiveLines(c.executable) {
        CoveredLinesArePositive(c);
        TuplesAccepted(c.covered, rules);
        TuplesRoundTrip(c.executable, rules);
        TuplesRoundTrip(c.covered, rules);
      }
    }
  }
}
