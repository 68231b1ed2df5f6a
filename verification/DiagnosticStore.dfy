/** The bounded store of recent extension reports, against a log that forgets nothing. */
module DiagnosticStore {
  import opened Wrappers
  import opened Sequences

  // Times are seconds.
  const RETENTION: int := 900
  const FUTURE_SKEW: int := 300
  const OLDEST_OBSERVATION: int := 86400
  const CAPACITY: nat := 32

  /** A time stamp with or without a time zone. */
  datatype Stamp = Aware(time: int) | Naive

  datatype Report = Report(consumer: string, observed: Stamp)

  datatype Stored = Stored(report: Report, received: int)

  datatype RecordError = NaiveReceipt | NaiveObservation | TooFarInTheFuture | TooOld

  type Reports = map<string, Stored>

  predicate Acceptable(r: Report, now: Stamp) {
    && now.Aware? && r.observed.Aware?
    && now.time - OLDEST_OBSERVATION <= r.observed.time <= now.time + FUTURE_SKEW
  }

  function Kept(m: Reports, now: int): Reports {
    map c | c in m && m[c].received >= now - RETENTION :: m[c]
  }

  predicate Oldest(m: Reports, c: string) {
    c in m && forall d :: d in m ==> m[c].received <= m[d].received
  }

  predicate Newest(m: Reports, c: string) {
    c in m && forall d :: d in m ==> m[d].received <= m[c].received
  }

  lemma {:induction false} ExtremesExist(m: Reports, s: set<string>) returns (oldest: string, newest: string)
    requires s != {} && s <= m.Keys
    ensures oldest in s && forall d :: d in s ==> m[oldest].received <= m[d].received
    ensures newest in s && forall d :: d in s ==> m[d].received <= m[newest].received
    decreases |s|
  {
    var x := Pick(s);
    if s == {x} {
      oldest, newest := x, x;
    } else {
      var rest := s - {x};
      oldest, newest := ExtremesExist(m, rest);
      assert forall d :: d in s ==> d == x || d in rest;
      if m[x].received < m[oldest].received {
        oldest := x;
      }
      if m[x].received > m[newest].received {
        newest := x;
      }
    }
  }

  /** What the store holds of the log, whatever the clocks did. */
  ghost predicate Reflects(m: Reports, log: seq<Stored>) {
    && |m| <= CAPACITY
    && (forall c :: c in m ==> m[c].report.consumer == c && IsLastOf(log, m[c]))
  }

  /** `x` is the last log entry of its consumer. */
  ghost predicate IsLastOf(log: seq<Stored>, x: Stored) {
    exists i :: 0 <= i < |log| && log[i] == x
      && forall j :: i < j < |log| ==> log[j].report.consumer != x.report.consumer
  }

  lemma KeptCount(m: Reports, now: int)
    ensures |Kept(m, now)| <= |m|
  {
    SubsetCount(Kept(m, now).Keys, m.Keys);
  }

  lemma {:induction false} SubsetCount(a: set<string>, b: set<string>)
    requires a <= b
    ensures |a| <= |b|
    decreases |a|
  {
    if a != {} {
      var x := Pick(a);
      SubsetCount(a - {x}, b - {x});
    }
  }

  lemma KeptReflects(m: Reports, log: seq<Stored>, now: int)
    requires Reflects(m, log)
    ensures Reflects(Kept(m, now), log)
  {
    KeptCount(m, now);
  }

  // A log entry of another consumer stays the last of its own when one is appended.
  lemma StillLast(log: seq<Stored>, x: Stored, y: Stored)
    requires IsLastOf(log, x) && y.report.consumer != x.report.consumer
    ensures IsLastOf(log + [y], x)
  {
    var i :| 0 <= i < |log| && log[i] == x && forall j :: i < j < |log| ==> log[j].report.consumer != x.report.consumer;
    assert (log + [y])[i] == x;
    assert forall j :: i < j < |log + [y]| ==> (log + [y])[j].report.consumer != x.report.consumer;
  }

  /** `m` with one more entry, and without its oldest when that makes it too many. */
  ghost predicate Inserted(m: Reports, x: Stored, m': Reports) {
    var all := m[x.report.consumer := x];
    if |all| > CAPACITY then exists c :: Oldest(all, c) && m' == all - {c} else m' == all
  }

  lemma InsertedCount(m: Reports, x: Stored)
    ensures |m[x.report.consumer := x]| <= |m| + 1
  {
    var all := m[x.report.consumer := x];
    assert all.Keys == m.Keys + {x.report.consumer};
    if x.report.consumer !in m {
      assert |all.Keys| == |m.Keys| + 1;
    } else {
      assert all.Keys == m.Keys;
    }
  }

  lemma InsertedReflects(m: Reports, log: seq<Stored>, x: Stored, m': Reports)
    requires Reflects(m, log) && Inserted(m, x, m')
    ensures Reflects(m', log + [x])
  {
    var all := m[x.report.consumer := x];
    InsertedCount(m, x);
    forall c | c in all ensures all[c].report.consumer == c && IsLastOf(log + [x], all[c]) {
      if c == x.report.consumer {
        assert (log + [x])[|log|] == x;
      } else {
        StillLast(log, m[c], x);
      }
    }
    if |all| > CAPACITY {
      var c :| Oldest(all, c) && m' == all - {c};
      assert m'.Keys == all.Keys - {c};
      assert |m'.Keys| == |all.Keys| - 1;
    }
  }

  lemma {:induction false} Another(s: set<string>, c: string) returns (d: string)
    requires |s| > 1
    ensures d in s && d != c
  {
    if s - {c} == {} {
      SubsetCount(s, {c});
      assert false;
    }
    d := Pick(s - {c});
  }

  /** Some entry of the store was received at `top`. */
  predicate Carries(m: Reports, top: int) {
    exists c :: c in m && m[c].received == top
  }

  // Evicting the oldest never loses the greatest receipt time: the entry just made carries it, and
  // if that is the one evicted then all the others carry it too.
  lemma InsertedCarries(m: Reports, x: Stored, m': Reports)
    requires Inserted(m, x, m') && forall c :: c in m ==> m[c].received <= x.received
    ensures Carries(m', x.received)
  {
    var all := m[x.report.consumer := x];
    var key := x.report.consumer;
    if |all| > CAPACITY {
      var c :| Oldest(all, c) && m' == all - {c};
      if c == key {
        var d := Another(all.Keys, c);
        assert d in m' && m'[d].received == x.received;
      } else {
        assert key in m' && m'[key].received == x.received;
      }
    } else {
      assert key in m' && m'[key].received == x.received;
    }
  }

  // ----- runs of the store --------------------------------------------------------------------

  /** A call that changed the store: an accepted report, or a question at some time. */
  datatype Call = Recorded(entry: Stored) | Asked(time: int) {
    function Time(): int {
      match this
      case Recorded(entry) => entry.received
      case Asked(time) => time
    }
  }

  ghost predicate Takes(m: Reports, call: Call, m': Reports) {
    match call
    case Recorded(entry) => Acceptable(entry.report, Aware(entry.received)) && Inserted(Kept(m, entry.received), entry, m')
    case Asked(time) => m' == Kept(m, time)
  }

  /** `m` is what the store may hold after these calls; which of several oldest entries is evicted is open. */
  ghost predicate Reaches(calls: seq<Call>, m: Reports)
    decreases |calls|, 0
  {
    if calls == [] then m == map[] else ReachesBy(calls[..|calls| - 1], calls[|calls| - 1], m)
  }

  ghost predicate ReachesBy(calls: seq<Call>, last: Call, m: Reports)
    decreases |calls|, 1
  {
    exists before :: Reaches(calls, before) && Takes(before, last, m)
  }

  /** The log that forgets nothing. */
  function LogOf(calls: seq<Call>): seq<Stored> {
    if calls == [] then []
    else
      var last := calls[|calls| - 1];
      LogOf(calls[..|calls| - 1]) + if last.Recorded? then [last.entry] else []
  }

  lemma {:induction false} LogHolds(calls: seq<Call>, x: Stored)
    ensures x in LogOf(calls) <==> Recorded(x) in calls
  {
    if calls != [] {
      LogHolds(calls[..|calls| - 1], x);
      assert calls == calls[..|calls| - 1] + [calls[|calls| - 1]];
    }
  }

  lemma ReachesStep(calls: seq<Call>, m: Reports, call: Call, m': Reports)
    requires Reaches(calls, m) && Takes(m, call, m')
    ensures Reaches(calls + [call], m') && LogOf(calls + [call]) == LogOf(calls) + if call.Recorded? then [call.entry] else []
  {
    assert (calls + [call])[..|calls|] == calls;
    assert ReachesBy(calls, call, m');
  }

  // Whatever the clocks do, the store stays bounded and keeps for each consumer the last it logged.
  lemma {:induction false} ReachedReflects(calls: seq<Call>, m: Reports)
    requires Reaches(calls, m)
    ensures Reflects(m, LogOf(calls))
  {
    if calls != [] {
      var front, last := calls[..|calls| - 1], calls[|calls| - 1];
      assert ReachesBy(front, last, m);
      var before: Reports :| Reaches(front, before) && Takes(before, last, m);
      ReachedReflects(front, before);
      KeptReflects(before, LogOf(front), last.Time());
      if last.Recorded? {
        InsertedReflects(Kept(before, last.Time()), LogOf(front), last.entry, m);
      } else {
        assert LogOf(calls) == LogOf(front);
      }
    }
  }

  // ----- when the store agrees with the log --------------------------------------------------------

  /** What one can see of a call from outside: whether it records, and the clock it read. */
  datatype Moment = Moment(records: bool, time: int)

  function Moments(calls: seq<Call>): (r: seq<Moment>)
    ensures |r| == |calls|
    ensures forall i :: 0 <= i < |calls| ==> r[i] == Moment(calls[i].Recorded?, calls[i].Time())
  {
    if calls == [] then []
    else
      var last := calls[|calls| - 1];
      Moments(calls[..|calls| - 1]) + [Moment(last.Recorded?, last.Time())]
  }

  /** The answer at `now` is that of the log: nothing when nothing is recent, else a greatest receipt time. */
  ghost predicate Agrees(m: Reports, log: seq<Stored>, now: int) {
    && (Kept(m, now) == map[] <==> forall x :: x in log ==> x.received < now - RETENTION)
    && (forall c, x :: Newest(Kept(m, now), c) && x in log ==> x.received <= m[c].received)
  }

  /** The store agrees with the log at `now` for every assignment of consumers to these moments. */
  ghost predicate AlwaysAgrees(moments: seq<Moment>, now: int) {
    forall calls: seq<Call>, m: Reports :: Moments(calls) == moments && Reaches(calls, m) ==> Agrees(m, LogOf(calls), now)
  }

  predicate NothingRecent(moments: seq<Moment>, now: int) {
    forall i :: 0 <= i < |moments| && moments[i].records ==> moments[i].time < now - RETENTION
  }

  /** The last record is one of greatest time, and no later clock reading was past its retention. */
  predicate NewestIsLast(moments: seq<Moment>, i: int) {
    && 0 <= i < |moments| && moments[i].records
    && (forall j :: 0 <= j < |moments| && moments[j].records ==> j <= i && moments[j].time <= moments[i].time)
    && (forall j :: i < j < |moments| ==> moments[j].time <= moments[i].time + RETENTION)
  }

  ghost predicate NewestSurvives(moments: seq<Moment>, now: int) {
    NothingRecent(moments, now) || exists i :: NewestIsLast(moments, i)
  }

  lemma MomentOfLogged(calls: seq<Call>, x: Stored)
    requires x in LogOf(calls)
    ensures exists i :: 0 <= i < |calls| && Moments(calls)[i] == Moment(true, x.received)
  {
    LogHolds(calls, x);
    var i :| 0 <= i < |calls| && calls[i] == Recorded(x);
    assert Moments(calls)[i] == Moment(true, x.received);
  }

  lemma HeldIsLogged(calls: seq<Call>, m: Reports, c: string)
    requires Reaches(calls, m) && c in m
    ensures m[c] in LogOf(calls)
  {
    ReachedReflects(calls, m);
    assert IsLastOf(LogOf(calls), m[c]);
  }

  lemma NewestIsLastBefore(front: seq<Moment>, last: Moment, i: int)
    requires NewestIsLast(front + [last], i) && i < |front|
    ensures NewestIsLast(front, i) && !last.records && last.time <= front[i].time + RETENTION
  {
    var all := front + [last];
    assert forall j :: 0 <= j < |front| ==> all[j] == front[j];
    assert all[|front|] == last;
  }

  lemma {:induction false} NewestIsCarried(calls: seq<Call>, m: Reports, i: int)
    requires Reaches(calls, m) && NewestIsLast(Moments(calls), i)
    ensures Carries(m, Moments(calls)[i].time)
    decreases |calls|
  {
    var front, last := calls[..|calls| - 1], calls[|calls| - 1];
    var top := Moments(calls)[i].time;
    assert ReachesBy(front, last, m);
    var before: Reports :| Reaches(front, before) && Takes(before, last, m);
    if i == |calls| - 1 {
      forall c | c in before ensures before[c].received <= top {
        HeldIsLogged(front, before, c);
        MomentOfLogged(front, before[c]);
        var j :| 0 <= j < |front| && Moments(front)[j] == Moment(true, before[c].received);
        assert Moments(calls)[j] == Moments(front)[j];
      }
      InsertedCarries(Kept(before, top), last.entry, m);
    } else {
      NewestIsLastBefore(Moments(front), Moment(last.Recorded?, last.Time()), i);
      NewestIsCarried(front, before, i);
      var c :| c in before && before[c].received == top;
      assert c in m;
    }
  }

  lemma SurvivingNewestIsFound(calls: seq<Call>, m: Reports, now: int)
    requires Reaches(calls, m) && NewestSurvives(Moments(calls), now)
    ensures Agrees(m, LogOf(calls), now)
  {
    var moments, log, kept := Moments(calls), LogOf(calls), Kept(m, now);
    forall x | x in log
      ensures NothingRecent(moments, now) ==> x.received < now - RETENTION
      ensures forall i :: NewestIsLast(moments, i) ==> x.received <= moments[i].time
    {
      MomentOfLogged(calls, x);
    }
    forall c | c in kept ensures m[c] in log {
      HeldIsLogged(calls, m, c);
    }
    if NothingRecent(moments, now) {
      assert forall c :: c !in kept;
    } else {
      var i :| NewestIsLast(moments, i);
      var top := moments[i].time;
      NewestIsCarried(calls, m, i);
      var c :| c in m && m[c].received == top;
      HeldIsLogged(calls, m, c);
      var j :| 0 <= j < |moments| && moments[j].records && moments[j].time >= now - RETENTION;
      assert top >= now - RETENTION && c in kept;
    }
  }

  // ----- necessity, with a single consumer ------------------------------------------------------------

  function EntryAt(time: int): Stored {
    Stored(Report("vscode", Aware(time)), time)
  }

  function CallAt(moment: Moment): Call {
    if moment.records then Recorded(EntryAt(moment.time)) else Asked(moment.time)
  }

  function OneConsumer(moments: seq<Moment>): (calls: seq<Call>)
    ensures |calls| == |moments|
    ensures forall i :: 0 <= i < |moments| ==> calls[i] == CallAt(moments[i])
  {
    if moments == [] then [] else OneConsumer(moments[..|moments| - 1]) + [CallAt(moments[|moments| - 1])]
  }

  function OneEntry(moments: seq<Moment>): Reports {
    if moments == [] then map[]
    else
      var last := moments[|moments| - 1];
      if last.records then map["vscode" := EntryAt(last.time)] else Kept(OneEntry(moments[..|moments| - 1]), last.time)
  }

  lemma OneConsumerMoments(moments: seq<Moment>)
    ensures Moments(OneConsumer(moments)) == moments
  {
  }

  lemma {:induction false} OneEntryIsOne(moments: seq<Moment>)
    ensures forall c :: c in OneEntry(moments) ==> c == "vscode"
  {
    if moments != [] {
      OneEntryIsOne(moments[..|moments| - 1]);
    }
  }

  lemma {:induction false} OneEntryIsReached(moments: seq<Moment>)
    ensures Reaches(OneConsumer(moments), OneEntry(moments))
  {
    if moments != [] {
      var front, last := moments[..|moments| - 1], moments[|moments| - 1];
      OneEntryIsReached(front);
      OneEntryIsOne(front);
      if last.records {
        OverwritesOne(Kept(OneEntry(front), last.time), EntryAt(last.time));
      }
      assert Takes(OneEntry(front), CallAt(last), OneEntry(moments));
      ReachesStep(OneConsumer(front), OneEntry(front), CallAt(last), OneEntry(moments));
    }
  }

  lemma OverwritesOne(m: Reports, x: Stored)
    requires x.report.consumer == "vscode" && forall c :: c in m ==> c == "vscode"
    ensures Inserted(m, x, map["vscode" := x])
  {
    assert m["vscode" := x] == map["vscode" := x];
    assert map["vscode" := x].Keys == {"vscode"};
  }

  /** The last record, and no later clock reading past its retention. */
  predicate LastSurvives(moments: seq<Moment>, i: int) {
    && 0 <= i < |moments| && moments[i].records
    && (forall j :: 0 <= j < |moments| && moments[j].records ==> j <= i)
    && (forall j :: i < j < |moments| ==> moments[j].time <= moments[i].time + RETENTION)
  }

  lemma LastSurvivesOn(front: seq<Moment>, last: Moment, i: int)
    requires LastSurvives(front, i) && !last.records && last.time <= front[i].time + RETENTION
    ensures LastSurvives(front + [last], i)
  {
  }

  lemma {:induction false} OneEntryIsLast(moments: seq<Moment>) returns (i: int)
    requires OneEntry(moments) != map[]
    ensures LastSurvives(moments, i) && OneEntry(moments) == map["vscode" := EntryAt(moments[i].time)]
  {
    var front, last := moments[..|moments| - 1], moments[|moments| - 1];
    if last.records {
      i := |moments| - 1;
    } else {
      assert OneEntry(front) == map[] ==> OneEntry(moments) == map[];
      i := OneEntryIsLast(front);
      assert OneEntry(front)["vscode"] == EntryAt(front[i].time);
      assert front[i] == moments[i];
      assert last.time > front[i].time + RETENTION ==> OneEntry(moments) == map[];
      assert OneEntry(moments) == OneEntry(front);
      LastSurvivesOn(front, last, i);
      assert front + [last] == moments;
    }
  }

  lemma {:induction false} LoggedAt(moments: seq<Moment>, k: int)
    requires 0 <= k < |moments| && moments[k].records
    ensures EntryAt(moments[k].time) in LogOf(OneConsumer(moments))
  {
    var calls := OneConsumer(moments);
    assert calls[k] == Recorded(EntryAt(moments[k].time)) && calls[k] in calls;
    LogHolds(OneConsumer(moments), EntryAt(moments[k].time));
  }

  lemma AgreementNeedsSurvival(moments: seq<Moment>, now: int)
    requires Agrees(OneEntry(moments), LogOf(OneConsumer(moments)), now)
    ensures NewestSurvives(moments, now)
  {
    if !NothingRecent(moments, now) {
      var m, log := OneEntry(moments), LogOf(OneConsumer(moments));
      var k :| 0 <= k < |moments| && moments[k].records && moments[k].time >= now - RETENTION;
      LoggedAt(moments, k);
      assert Kept(m, now) != map[];
      assert m != map[];
      var i := OneEntryIsLast(moments);
      assert Newest(Kept(m, now), "vscode");
      forall j | 0 <= j < |moments| && moments[j].records ensures moments[j].time <= moments[i].time {
        LoggedAt(moments, j);
      }
      assert NewestIsLast(moments, i);
    }
  }

  // The store answers as the log does, whoever the consumers are, exactly when nothing is recent, or
  // the last record has the greatest time and no later call read a clock past its retention.
  lemma AlwaysAgreesIff(moments: seq<Moment>, now: int)
    ensures AlwaysAgrees(moments, now) <==> NewestSurvives(moments, now)
  {
    if NewestSurvives(moments, now) {
      forall calls: seq<Call>, m: Reports | Moments(calls) == moments && Reaches(calls, m)
        ensures Agrees(m, LogOf(calls), now)
      {
        SurvivingNewestIsFound(calls, m, now);
      }
    }
    if AlwaysAgrees(moments, now) {
      OneEntryIsReached(moments);
      OneConsumerMoments(moments);
      AgreementNeedsSurvival(moments, now);
    }
  }

  lemma {:induction false} LastRecord(moments: seq<Moment>) returns (i: int)
    requires exists k :: 0 <= k < |moments| && moments[k].records
    ensures 0 <= i < |moments| && moments[i].records && forall j :: i < j < |moments| ==> !moments[j].records
  {
    var k :| 0 <= k < |moments| && moments[k].records;
    if moments[|moments| - 1].records {
      i := |moments| - 1;
    } else {
      assert moments[..|moments| - 1][k].records;
      i := LastRecord(moments[..|moments| - 1]);
    }
  }

  // Clocks that never go back are enough.
  lemma SteadyClocksAgree(moments: seq<Moment>, now: int)
    requires forall i, j :: 0 <= i < j < |moments| ==> moments[i].time <= moments[j].time
    requires forall i :: 0 <= i < |moments| ==> moments[i].time <= now
    ensures NewestSurvives(moments, now)
  {
    if k :| 0 <= k < |moments| && moments[k].records {
      var i := LastRecord(moments);
      if forall j :: i < j < |moments| ==> moments[j].time <= moments[i].time + RETENTION {
        assert NewestIsLast(moments, i);
      }
    }
  }

  // ----- the store -------------------------------------------------------------------------------------

  method WithoutExcess(all: Reports) returns (m: Reports)
    ensures if |all| > CAPACITY then exists c :: Oldest(all, c) && m == all - {c} else m == all
  {
    m := all;
    if |all| > CAPACITY {
      ghost var o, n := ExtremesExist(all, all.Keys);
      assert Oldest(all, o);
      var oldest :| oldest in all && Oldest(all, oldest);
      m := all - {oldest};
    }
  }

  class LocalEnvironmentDiagnosticStore {
    var reports: Reports
    ghost var calls: seq<Call>

    ghost predicate Valid()
      reads this
    {
      Reaches(calls, reports)
    }

    constructor ()
      ensures Valid() && reports == map[] && calls == []
    {
      reports, calls := map[], [];
    }

    method Prune(now: int)
      modifies `reports
      ensures reports == Kept(old(reports), now)
    {
      reports := Kept(reports, now);
    }

    method Record(report: Report, receivedAt: Stamp) returns (r: Result<(), RecordError>)
      requires Valid()
      modifies this
      ensures Valid() && Reflects(reports, LogOf(calls))
      ensures r.Ok? <==> Acceptable(report, receivedAt)
      ensures r.Err? ==> reports == old(reports) && calls == old(calls)
      ensures r.Ok? ==> calls == old(calls) + [Recorded(Stored(report, receivedAt.time))]
      ensures r.Ok? ==> Inserted(Kept(old(reports), receivedAt.time), Stored(report, receivedAt.time), reports)
    {
      ReachedReflects(calls, reports);
      if receivedAt.Naive? {
        return Err(NaiveReceipt);
      }
      if report.observed.Naive? {
        return Err(NaiveObservation);
      }
      var now := receivedAt.time;
      if report.observed.time > now + FUTURE_SKEW {
        return Err(TooFarInTheFuture);
      }
      if report.observed.time < now - OLDEST_OBSERVATION {
        return Err(TooOld);
      }
      ghost var before := reports;
      Prune(now);
      var entry := Stored(report, now);
      reports := WithoutExcess(reports[report.consumer := entry]);
      ReachesStep(calls, before, Recorded(entry), reports);
      calls := calls + [Recorded(entry)];
      ReachedReflects(calls, reports);
      return Ok(());
    }

    method Latest(now: int) returns (r: Option<Stored>)
      requires Valid()
      modifies this
      ensures Valid() && calls == old(calls) + [Asked(now)] && LogOf(calls) == old(LogOf(calls))
      ensures reports == Kept(old(reports), now) && (r.None? <==> reports == map[])
      ensures r.Some? ==> IsLastOf(LogOf(calls), r.value) && r.value.received >= now - RETENTION
      ensures NewestSurvives(Moments(old(calls)), now) ==> Answers(r, LogOf(calls), now)
    {
      ghost var before := reports;
      Prune(now);
      ReachesStep(calls, before, Asked(now), reports);
      ReachedReflects(calls + [Asked(now)], reports);
      if reports == map[] {
        r := None;
      } else {
        ghost var o, n := ExtremesExist(reports, reports.Keys);
        assert Newest(reports, n);
        var newest :| newest in reports && Newest(reports, newest);
        r := Some(reports[newest]);
      }
      if NewestSurvives(Moments(calls), now) {
        SurvivingNewestIsFound(calls, before, now);
      }
      calls := calls + [Asked(now)];
    }
  }

  /** None when nothing in the log is recent, and otherwise a log entry of greatest receipt time. */
  ghost predicate Answers(r: Option<Stored>, log: seq<Stored>, now: int) {
    && (r.None? <==> forall x :: x in log ==> x.received < now - RETENTION)
    && (r.Some? ==> forall x :: x in log ==> x.received <= r.value.received)
  }

  // A clock that goes back loses a report: once pruned at a later time it is gone, although at the
  // earlier time it is recent.
  method BackwardsClockLosesReport() returns (store: LocalEnvironmentDiagnosticStore, r: Option<Stored>)
    ensures fresh(store) && store.Valid() && r.None?
    ensures exists x :: x in LogOf(store.calls) && x.received >= store.calls[|store.calls| - 1].Time() - RETENTION
  {
    store := new LocalEnvironmentDiagnosticStore();
    var report := Report("extension", Aware(0));
    var recorded := store.Record(report, Aware(0));
    assert store.calls == [Recorded(Stored(report, 0))];
    LogHolds(store.calls, Stored(report, 0));
    assert store.calls[0] == Recorded(Stored(report, 0));
    r := store.Latest(RETENTION + 1);
    assert store.reports == map[];
    r := store.Latest(0);
    assert Stored(report, 0) in LogOf(store.calls);
  }
}
