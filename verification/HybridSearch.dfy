/** Reciprocal rank fusion of two search channels, and one fragment per document. */
module HybridSearch {
  import opened Ordering
  import opened Sequences

  datatype Channel = Vector | Keyword

  datatype Hit = Hit(target: string, rank: nat)

  datatype Candidate = Candidate(target: string, score: real, channels: seq<Channel>)

  // ----- scores -------------------------------------------------------------------------

  function Share(h: Hit, k: nat): (s: real)
    requires k > 0
    ensures s > 0.0
  {
    1.0 / (k + h.rank) as real
  }

  /** What one channel adds to the score of `t`. */
  function Sum(hits: seq<Hit>, t: string, k: nat): (s: real)
    requires k > 0
    ensures s >= 0.0
  {
    if hits == [] then 0.0
    else
      var last := hits[|hits| - 1];
      Sum(hits[..|hits| - 1], t, k) + if last.target == t then Share(last, k) else 0.0
  }

  predicate HitBy(hits: seq<Hit>, t: string) {
    exists i :: 0 <= i < |hits| && hits[i].target == t
  }

  function Targets(hits: seq<Hit>): (r: set<string>)
    ensures forall t :: t in r <==> HitBy(hits, t)
  {
    set i | 0 <= i < |hits| :: hits[i].target
  }

  /** The score of `t`: what both channels add. */
  function Fused(vector: seq<Hit>, keyword: seq<Hit>, t: string, k: nat): real
    requires k > 0
  {
    Sum(vector, t, k) + Sum(keyword, t, k)
  }

  function Scores(vector: seq<Hit>, keyword: seq<Hit>, k: nat): map<string, real>
    requires k > 0
  {
    map t | t in Targets(vector) + Targets(keyword) :: Fused(vector, keyword, t, k)
  }

  lemma {:induction false} SumIsPositiveIffHit(hits: seq<Hit>, t: string, k: nat)
    requires k > 0
    ensures Sum(hits, t, k) > 0.0 <==> HitBy(hits, t)
  {
    if hits != [] {
      var front, last := hits[..|hits| - 1], hits[|hits| - 1];
      SumIsPositiveIffHit(front, t, k);
      if HitBy(front, t) {
        var i :| 0 <= i < |front| && front[i].target == t;
        assert hits[i].target == t;
      }
    }
  }

  lemma ScoresArePositive(vector: seq<Hit>, keyword: seq<Hit>, k: nat)
    requires k > 0
    ensures forall t :: t in Scores(vector, keyword, k) ==> Scores(vector, keyword, k)[t] > 0.0
  {
    forall t | t in Scores(vector, keyword, k) ensures Scores(vector, keyword, k)[t] > 0.0 {
      SumIsPositiveIffHit(vector, t, k);
      SumIsPositiveIffHit(keyword, t, k);
    }
  }

  // ----- the order of the targets ------------------------------------------------------------

  /** Higher score first, then smaller id. */
  predicate Precedes(scores: map<string, real>, a: string, b: string)
    requires a in scores && b in scores
  {
    scores[a] > scores[b] || (scores[a] == scores[b] && StrLe(a, b))
  }

  predicate IsFirst(scores: map<string, real>, ids: set<string>, m: string)
    requires ids <= scores.Keys
  {
    m in ids && forall x :: x in ids ==> Precedes(scores, m, x)
  }

  lemma PrecedesTransitive(scores: map<string, real>, a: string, b: string, c: string)
    requires a in scores && b in scores && c in scores
    requires Precedes(scores, a, b) && Precedes(scores, b, c)
    ensures Precedes(scores, a, c)
  {
    if scores[a] == scores[b] == scores[c] {
      StrLeTransitive(a, b, c);
    }
  }

  lemma {:induction false} FirstExists(scores: map<string, real>, ids: set<string>) returns (m: string)
    requires ids <= scores.Keys && ids != {}
    ensures IsFirst(scores, ids, m)
    ensures forall n :: IsFirst(scores, ids, n) ==> n == m
    decreases |ids|
  {
    var x :| x in ids;
    StrLeTotal(x, x);
    if ids == {x} {
      m := x;
    } else {
      var rest := FirstExists(scores, ids - {x});
      StrLeTotal(x, rest);
      m := if Precedes(scores, x, rest) then x else rest;
      forall y | y in ids ensures Precedes(scores, m, y) {
        if y != x && m == x {
          PrecedesTransitive(scores, x, rest, y);
        }
      }
    }
    forall n | IsFirst(scores, ids, n) ensures n == m {
      assert Precedes(scores, n, m) && Precedes(scores, m, n);
      StrLeAntisymmetric(n, m);
    }
  }

  function First(scores: map<string, real>, ids: set<string>): (m: string)
    requires ids <= scores.Keys && ids != {}
    ensures m in ids
  {
    assert exists m :: IsFirst(scores, ids, m) && forall n :: IsFirst(scores, ids, n) ==> n == m by {
      var m := FirstExists(scores, ids);
    }
    var m :| IsFirst(scores, ids, m);
    m
  }

  /** `sorted` by (-score, id). */
  function Ordered(scores: map<string, real>, ids: set<string>): (r: seq<string>)
    requires ids <= scores.Keys
    ensures forall t :: t in r <==> t in ids
    ensures |r| == |ids|
    decreases |ids|
  {
    if ids == {} then []
    else [First(scores, ids)] + Ordered(scores, ids - {First(scores, ids)})
  }

  predicate InOrder(scores: map<string, real>, r: seq<string>)
    requires forall t :: t in r ==> t in scores
  {
    forall i, j :: 0 <= i < j < |r| ==> Precedes(scores, r[i], r[j]) && r[i] != r[j]
  }

  lemma Prepended(scores: map<string, real>, m: string, rest: seq<string>)
    requires m in scores && forall t :: t in rest ==> t in scores
    requires InOrder(scores, rest) && forall t :: t in rest ==> t != m && Precedes(scores, m, t)
    ensures InOrder(scores, [m] + rest)
  {
    var r := [m] + rest;
    forall i, j | 0 <= i < j < |r| ensures Precedes(scores, r[i], r[j]) && r[i] != r[j] {
      assert r[j] == rest[j - 1] && rest[j - 1] in rest;
    }
  }

  lemma {:induction false} OrderedIsInOrder(scores: map<string, real>, ids: set<string>)
    requires ids <= scores.Keys
    ensures InOrder(scores, Ordered(scores, ids))
    decreases |ids|
  {
    if ids != {} {
      var m := First(scores, ids);
      OrderedIsInOrder(scores, ids - {m});
      assert IsFirst(scores, ids, m);
      Prepended(scores, m, Ordered(scores, ids - {m}));
    }
  }

  // ----- the fused list -----------------------------------------------------------------------

  function ChannelsOf(vector: seq<Hit>, keyword: seq<Hit>, t: string): seq<Channel> {
    (if t in Targets(vector) then [Vector] else []) + (if t in Targets(keyword) then [Keyword] else [])
  }

  function Candidates(ids: seq<string>, scores: map<string, real>, top: real, vector: seq<Hit>, keyword: seq<Hit>): (r: seq<Candidate>)
    requires top > 0.0 && forall t :: t in ids ==> t in scores
    ensures |r| == |ids|
    ensures forall i :: 0 <= i < |ids| ==> r[i] == Candidate(ids[i], scores[ids[i]] / top, ChannelsOf(vector, keyword, ids[i]))
  {
    if ids == [] then []
    else
      var last := ids[|ids| - 1];
      Candidates(ids[..|ids| - 1], scores, top, vector, keyword)
      + [Candidate(last, scores[last] / top, ChannelsOf(vector, keyword, last))]
  }

  function Shorter(n: nat, m: nat): nat {
    if n <= m then n else m
  }

  /** The first `limit` targets of the order. */
  function Kept(scores: map<string, real>, limit: nat): (r: seq<string>)
    ensures forall t :: t in r ==> t in scores
  {
    var ids := Ordered(scores, scores.Keys);
    var r := ids[..Shorter(limit, |ids|)];
    assert forall t :: t in r ==> t in ids;
    r
  }

  function Fusion(vector: seq<Hit>, keyword: seq<Hit>, k: nat, limit: nat): seq<Candidate>
    requires k > 0
  {
    var scores := Scores(vector, keyword, k);
    if scores.Keys == {} then []
    else
      ScoresArePositive(vector, keyword, k);
      Candidates(Kept(scores, limit), scores, scores[First(scores, scores.Keys)], vector, keyword)
  }

  function ScoreAt(scores: map<string, real>, t: string): real {
    if t in scores then scores[t] else 0.0
  }

  function ChannelsAt(channels: map<string, set<Channel>>, t: string): set<Channel> {
    if t in channels then channels[t] else {}
  }

  lemma OneMoreHit(hits: seq<Hit>, i: nat, k: nat, t: string)
    requires i < |hits| && k > 0
    ensures HitBy(hits[..i + 1], t) <==> HitBy(hits[..i], t) || hits[i].target == t
    ensures Sum(hits[..i + 1], t, k) == Sum(hits[..i], t, k) + if hits[i].target == t then Share(hits[i], k) else 0.0
  {
    var more := hits[..i + 1];
    assert more[..i] == hits[..i] && more[i] == hits[i];
    if HitBy(hits[..i], t) {
      var j :| 0 <= j < i && hits[j].target == t;
      assert more[j].target == t;
    }
  }

  method AddChannel(hits: seq<Hit>, channel: Channel, k: nat, scores: map<string, real>, channels: map<string, set<Channel>>)
    returns (scores': map<string, real>, channels': map<string, set<Channel>>)
    requires k > 0
    ensures forall t :: t in scores' <==> t in scores || HitBy(hits, t)
    ensures forall t :: ScoreAt(scores', t) == ScoreAt(scores, t) + Sum(hits, t, k)
    ensures forall t :: ChannelsAt(channels', t) == ChannelsAt(channels, t) + if HitBy(hits, t) then {channel} else {}
  {
    scores', channels' := scores, channels;
    for i := 0 to |hits|
      invariant forall t :: t in scores' <==> t in scores || HitBy(hits[..i], t)
      invariant forall t :: ScoreAt(scores', t) == ScoreAt(scores, t) + Sum(hits[..i], t, k)
      invariant forall t :: ChannelsAt(channels', t) == ChannelsAt(channels, t) + if HitBy(hits[..i], t) then {channel} else {}
    {
      var hit := hits[i];
      forall t {
        OneMoreHit(hits, i, k, t);
      }
      scores' := scores'[hit.target := ScoreAt(scores', hit.target) + Share(hit, k)];
      channels' := channels'[hit.target := ChannelsAt(channels', hit.target) + {channel}];
    }
    assert hits[..|hits|] == hits;
  }

  function InChannelOrder(s: set<Channel>): seq<Channel> {
    (if Vector in s then [Vector] else []) + (if Keyword in s then [Keyword] else [])
  }

  lemma AddedScores(vector: seq<Hit>, keyword: seq<Hit>, k: nat, scores: map<string, real>)
    requires k > 0
    requires forall t :: t in scores <==> HitBy(vector, t) || HitBy(keyword, t)
    requires forall t :: ScoreAt(scores, t) == Sum(vector, t, k) + Sum(keyword, t, k)
    ensures scores == Scores(vector, keyword, k)
  {
    var expected := Scores(vector, keyword, k);
    assert forall t :: t in scores <==> t in expected;
    forall t | t in scores ensures scores[t] == expected[t] {
      assert ScoreAt(scores, t) == scores[t];
    }
  }

  ghost predicate ChannelsMatch(channels: map<string, set<Channel>>, vector: seq<Hit>, keyword: seq<Hit>) {
    forall t :: InChannelOrder(ChannelsAt(channels, t)) == ChannelsOf(vector, keyword, t)
  }

  method CollectHits(vector: seq<Hit>, keyword: seq<Hit>, k: nat)
    returns (scores: map<string, real>, channels: map<string, set<Channel>>)
    requires k > 0
    ensures scores == Scores(vector, keyword, k) && ChannelsMatch(channels, vector, keyword)
  {
    scores, channels := AddChannel(vector, Vector, k, map[], map[]);
    scores, channels := AddChannel(keyword, Keyword, k, scores, channels);
    AddedScores(vector, keyword, k, scores);
  }

  method ListCandidates(ids: seq<string>, scores: map<string, real>, top: real, channels: map<string, set<Channel>>,
                        ghost vector: seq<Hit>, ghost keyword: seq<Hit>) returns (r: seq<Candidate>)
    requires top > 0.0 && forall t :: t in ids ==> t in scores
    requires ChannelsMatch(channels, vector, keyword)
    ensures r == Candidates(ids, scores, top, vector, keyword)
  {
    r := [];
    for i := 0 to |ids|
      invariant r == Candidates(ids[..i], scores, top, vector, keyword)
    {
      assert ids[i] in ids;
      assert ids[..i + 1][..i] == ids[..i];
      r := r + [Candidate(ids[i], scores[ids[i]] / top, InChannelOrder(ChannelsAt(channels, ids[i])))];
    }
    assert ids[..|ids|] == ids;
  }

  /** `_reciprocal_rank_fusion`. */
  method ReciprocalRankFusion(vector: seq<Hit>, keyword: seq<Hit>, k: nat, limit: nat) returns (r: seq<Candidate>)
    requires k > 0
    ensures r == Fusion(vector, keyword, k, limit)
  {
    var scores, channels := CollectHits(vector, keyword, k);
    if scores.Keys == {} {
      return [];
    }
    ScoresArePositive(vector, keyword, k);
    r := ListCandidates(Kept(scores, limit), scores, scores[First(scores, scores.Keys)], channels, vector, keyword);
  }

  // ----- what the fused list is -------------------------------------------------------------

  /** `r` lists `scores` best first, and leaves out only what comes after all of it. */
  ghost predicate BestFirst(scores: map<string, real>, r: seq<string>) {
    && (forall t :: t in r ==> t in scores)
    && InOrder(scores, r)
    && (forall c, t :: c in r && t in scores && t !in r ==> Precedes(scores, c, t))
  }

  lemma PrefixIsBestFirst(scores: map<string, real>, ids: seq<string>, n: nat)
    requires n <= |ids| && (forall t :: t in ids <==> t in scores) && InOrder(scores, ids)
    ensures BestFirst(scores, ids[..n])
  {
    assert forall j :: 0 <= j < n ==> ids[j] in ids[..n];
    forall c, t | c in ids[..n] && t in scores && t !in ids[..n] ensures Precedes(scores, c, t) {
      var i :| 0 <= i < n && ids[i] == c;
      var j :| 0 <= j < |ids| && ids[j] == t;
      assert i < j;
    }
  }

  lemma KeptIsBestFirst(scores: map<string, real>, limit: nat)
    ensures BestFirst(scores, Kept(scores, limit)) && |Kept(scores, limit)| == Shorter(limit, |scores.Keys|)
  {
    var ids := Ordered(scores, scores.Keys);
    OrderedIsInOrder(scores, scores.Keys);
    PrefixIsBestFirst(scores, ids, Shorter(limit, |ids|));
  }

  function TargetsListed(r: seq<Candidate>): (ids: seq<string>)
    ensures |ids| == |r| && forall i :: 0 <= i < |r| ==> ids[i] == r[i].target
  {
    if r == [] then [] else TargetsListed(r[..|r| - 1]) + [r[|r| - 1].target]
  }

  // The first min(limit, n) distinct targets, best first.
  lemma FusionShape(vector: seq<Hit>, keyword: seq<Hit>, k: nat, limit: nat)
    requires k > 0
    ensures BestFirst(Scores(vector, keyword, k), TargetsListed(Fusion(vector, keyword, k, limit)))
    ensures |Fusion(vector, keyword, k, limit)| == Shorter(limit, |Targets(vector) + Targets(keyword)|)
  {
    var scores, r := Scores(vector, keyword, k), Fusion(vector, keyword, k, limit);
    assert scores.Keys == Targets(vector) + Targets(keyword);
    KeptIsBestFirst(scores, limit);
    if scores.Keys != {} {
      assert TargetsListed(r) == Kept(scores, limit);
    }
  }

  lemma KeptStart(scores: map<string, real>, limit: nat)
    requires scores.Keys != {} && Kept(scores, limit) != []
    ensures Kept(scores, limit)[0] == First(scores, scores.Keys)
  {
  }

  /** Candidate `i`, in terms of the targets kept and the highest score. */
  lemma CandidateAt(vector: seq<Hit>, keyword: seq<Hit>, k: nat, limit: nat, i: nat)
    requires k > 0 && i < |Fusion(vector, keyword, k, limit)|
    ensures var scores := Scores(vector, keyword, k);
            && scores.Keys != {} && i < |Kept(scores, limit)| && Kept(scores, limit)[i] in scores
            && 0.0 < scores[Kept(scores, limit)[i]] <= scores[First(scores, scores.Keys)]
            && Fusion(vector, keyword, k, limit)[i] ==
                 Candidate(Kept(scores, limit)[i], scores[Kept(scores, limit)[i]] / scores[First(scores, scores.Keys)],
                           ChannelsOf(vector, keyword, Kept(scores, limit)[i]))
  {
    var scores := Scores(vector, keyword, k);
    ScoresArePositive(vector, keyword, k);
    var kept := Kept(scores, limit);
    assert kept[i] in kept;
    FirstIsHighest(scores, kept[i]);
  }

  /** In (0, 1], 1 in first place, and with exactly the channels that hit the target. */
  predicate WellScored(c: Candidate, first: bool, vector: seq<Hit>, keyword: seq<Hit>) {
    && 0.0 < c.score <= 1.0 && (first ==> c.score == 1.0)
    && (Vector in c.channels <==> HitBy(vector, c.target))
    && (Keyword in c.channels <==> HitBy(keyword, c.target))
  }

  // Scores lie in (0, 1], the first is 1, and the channels are exactly those that hit the target.
  lemma FusionScores(vector: seq<Hit>, keyword: seq<Hit>, k: nat, limit: nat)
    requires k > 0
    ensures forall i :: 0 <= i < |Fusion(vector, keyword, k, limit)| ==>
              WellScored(Fusion(vector, keyword, k, limit)[i], i == 0, vector, keyword)
  {
    var scores, r := Scores(vector, keyword, k), Fusion(vector, keyword, k, limit);
    forall i | 0 <= i < |r| ensures WellScored(r[i], i == 0, vector, keyword) {
      CandidateAt(vector, keyword, k, limit, i);
      KeptStart(scores, limit);
      RatioWithin(scores[Kept(scores, limit)[i]], scores[First(scores, scores.Keys)]);
    }
  }

  // Shown scores are the fused scores in proportion to the first.
  lemma ScoresAreProportional(vector: seq<Hit>, keyword: seq<Hit>, k: nat, limit: nat)
    requires k > 0
    ensures var r := Fusion(vector, keyword, k, limit);
            r != [] ==>
              var highest := Fused(vector, keyword, r[0].target, k);
              highest > 0.0 && forall i :: 0 <= i < |r| ==> r[i].score == Fused(vector, keyword, r[i].target, k) / highest
  {
    var r := Fusion(vector, keyword, k, limit);
    if r != [] {
      CandidateAt(vector, keyword, k, limit, 0);
      KeptStart(Scores(vector, keyword, k), limit);
      forall i | 0 <= i < |r|
        ensures r[i].score == Fused(vector, keyword, r[i].target, k) / Fused(vector, keyword, r[0].target, k)
      {
        CandidateAt(vector, keyword, k, limit, i);
      }
    }
  }

  lemma FirstIsHighest(scores: map<string, real>, t: string)
    requires t in scores
    ensures scores[t] <= scores[First(scores, scores.Keys)]
  {
    assert IsFirst(scores, scores.Keys, First(scores, scores.Keys));
  }

  lemma RatioWithin(x: real, y: real)
    requires 0.0 < x <= y
    ensures 0.0 < x / y <= 1.0 && (x == y ==> x / y == 1.0)
  {
  }

  // ----- the order hits are listed in does not matter --------------------------------------------

  lemma {:induction false} SumWithout(hits: seq<Hit>, j: nat, t: string, k: nat)
    requires k > 0 && j < |hits|
    ensures Sum(hits, t, k) ==
            Sum(hits[..j] + hits[j + 1..], t, k) + if hits[j].target == t then Share(hits[j], k) else 0.0
  {
    var last := |hits| - 1;
    if j == last {
      assert hits[..j] + hits[j + 1..] == hits[..last];
    } else {
      var front := hits[..last];
      var without := hits[..j] + hits[j + 1..];
      assert without[..|without| - 1] == front[..j] + front[j + 1..];
      assert without[|without| - 1] == hits[last];
      SumWithout(front, j, t, k);
    }
  }

  lemma TakenOut(a: seq<Hit>, b: seq<Hit>) returns (j: nat)
    requires a != [] && multiset(a) == multiset(b)
    ensures j < |b| && b[j] == a[|a| - 1]
    ensures multiset(b[..j] + b[j + 1..]) == multiset(a[..|a| - 1])
  {
    var last := |a| - 1;
    assert a[last] in multiset(a);
    j :| 0 <= j < |b| && b[j] == a[last];
    Extracted(b, j);
    Extracted(a, last);
    assert a[..last] + a[last + 1..] == a[..last];
  }

  lemma {:induction false} SumOfPermutation(a: seq<Hit>, b: seq<Hit>, t: string, k: nat)
    requires k > 0 && multiset(a) == multiset(b)
    ensures Sum(a, t, k) == Sum(b, t, k)
    decreases |a|
  {
    if a == [] {
      assert |multiset(b)| == 0;
    } else {
      var j := TakenOut(a, b);
      SumOfPermutation(a[..|a| - 1], b[..j] + b[j + 1..], t, k);
      SumWithout(b, j, t, k);
    }
  }

  lemma TargetsOfPermutation(a: seq<Hit>, b: seq<Hit>)
    requires multiset(a) == multiset(b)
    ensures Targets(a) == Targets(b)
  {
    forall t ensures HitBy(a, t) <==> HitBy(b, t) {
      if HitBy(a, t) {
        var i :| 0 <= i < |a| && a[i].target == t;
        assert a[i] in multiset(b);
      }
      if HitBy(b, t) {
        var i :| 0 <= i < |b| && b[i].target == t;
        assert b[i] in multiset(a);
      }
    }
  }

  lemma {:induction false} CandidatesSame(ids: seq<string>, scores: map<string, real>, top: real,
                                         v: seq<Hit>, w: seq<Hit>, v': seq<Hit>, w': seq<Hit>)
    requires top > 0.0 && forall t :: t in ids ==> t in scores
    requires Targets(v) == Targets(v') && Targets(w) == Targets(w')
    ensures Candidates(ids, scores, top, v, w) == Candidates(ids, scores, top, v', w')
  {
    if ids != [] {
      CandidatesSame(ids[..|ids| - 1], scores, top, v, w, v', w');
    }
  }

  lemma FusionIgnoresListing(v: seq<Hit>, w: seq<Hit>, v': seq<Hit>, w': seq<Hit>, k: nat, limit: nat)
    requires k > 0 && multiset(v) == multiset(v') && multiset(w) == multiset(w')
    ensures Fusion(v, w, k, limit) == Fusion(v', w', k, limit)
  {
    TargetsOfPermutation(v, v');
    TargetsOfPermutation(w, w');
    var scores, scores' := Scores(v, w, k), Scores(v', w', k);
    forall t | t in scores ensures scores[t] == scores'[t] {
      SumOfPermutation(v, v', t, k);
      SumOfPermutation(w, w', t, k);
    }
    assert scores == scores';
    if scores.Keys != {} {
      ScoresArePositive(v, w, k);
      CandidatesSame(Kept(scores, limit), scores, scores[First(scores, scores.Keys)], v, w, v', w');
    }
  }

  // ----- a better ranked target comes first -----------------------------------------------------

  /** A channel lists no target twice. */
  predicate ListsOnce(hits: seq<Hit>) {
    forall i, j :: 0 <= i < j < |hits| ==> hits[i].target != hits[j].target
  }

  /** Wherever `b` is hit, `a` is hit at a rank that is no worse. */
  predicate NoWorse(hits: seq<Hit>, a: string, b: string) {
    forall j :: 0 <= j < |hits| && hits[j].target == b ==>
      exists i :: 0 <= i < |hits| && hits[i].target == a && hits[i].rank <= hits[j].rank
  }

  /** Somewhere `a` is hit and `b` is not, or at a worse rank. */
  predicate Better(hits: seq<Hit>, a: string, b: string) {
    exists i :: 0 <= i < |hits| && hits[i].target == a
      && forall j :: 0 <= j < |hits| && hits[j].target == b ==> hits[i].rank < hits[j].rank
  }

  lemma {:induction false} SumOfSingle(hits: seq<Hit>, i: nat, k: nat)
    requires k > 0 && i < |hits| && ListsOnce(hits)
    ensures Sum(hits, hits[i].target, k) == Share(hits[i], k)
  {
    var last := |hits| - 1;
    var front := hits[..last];
    if i == last {
      SumIsPositiveIffHit(front, hits[i].target, k);
    } else {
      assert front[i] == hits[i];
      SumOfSingle(front, i, k);
    }
  }

  lemma ShareFalls(h: Hit, g: Hit, k: nat)
    requires k > 0 && h.rank <= g.rank
    ensures Share(h, k) >= Share(g, k)
    ensures h.rank < g.rank ==> Share(h, k) > Share(g, k)
  {
    var x, y := (k + h.rank) as real, (k + g.rank) as real;
    assert 0.0 < x <= y;
    assert 1.0 / x >= 1.0 / y;
    if x < y {
      assert 1.0 / x > 1.0 / y;
    }
  }

  lemma NoWorseSum(hits: seq<Hit>, a: string, b: string, k: nat)
    requires k > 0 && ListsOnce(hits) && NoWorse(hits, a, b)
    ensures Sum(hits, a, k) >= Sum(hits, b, k)
    ensures Better(hits, a, b) ==> Sum(hits, a, k) > Sum(hits, b, k)
  {
    SumIsPositiveIffHit(hits, a, k);
    SumIsPositiveIffHit(hits, b, k);
    if HitBy(hits, b) {
      var j :| 0 <= j < |hits| && hits[j].target == b;
      var i :| 0 <= i < |hits| && hits[i].target == a && hits[i].rank <= hits[j].rank;
      SumOfSingle(hits, i, k);
      SumOfSingle(hits, j, k);
      ShareFalls(hits[i], hits[j], k);
    }
  }

  /** Hit wherever the other is, never at a worse rank and somewhere strictly better. */
  predicate Dominates(vector: seq<Hit>, keyword: seq<Hit>, a: string, b: string) {
    && NoWorse(vector, a, b) && NoWorse(keyword, a, b)
    && (Better(vector, a, b) || Better(keyword, a, b))
  }

  // A target that dominates another comes before it, and is kept whenever the other is.
  lemma BetterRankedComesFirst(vector: seq<Hit>, keyword: seq<Hit>, k: nat, limit: nat, a: string, b: string)
    requires k > 0 && ListsOnce(vector) && ListsOnce(keyword) && Dominates(vector, keyword, a, b)
    ensures var ids := TargetsListed(Fusion(vector, keyword, k, limit));
            forall j :: 0 <= j < |ids| && ids[j] == b ==> a in ids[..j]
  {
    var scores, ids := Scores(vector, keyword, k), TargetsListed(Fusion(vector, keyword, k, limit));
    NoWorseSum(vector, a, b, k);
    NoWorseSum(keyword, a, b, k);
    BothHit(vector, keyword, a, b);
    FusionShape(vector, keyword, k, limit);
    forall j | 0 <= j < |ids| && ids[j] == b ensures a in ids[..j] {
      assert ids[j] in ids;
      ListedBefore(scores, ids, a, j);
    }
  }

  lemma BothHit(vector: seq<Hit>, keyword: seq<Hit>, a: string, b: string)
    requires Better(vector, a, b) || Better(keyword, a, b)
    ensures HitBy(vector, a) || HitBy(keyword, a)
  {
  }

  lemma ListedBefore(scores: map<string, real>, ids: seq<string>, a: string, j: nat)
    requires BestFirst(scores, ids) && j < |ids| && a in scores && ids[j] in scores && scores[a] > scores[ids[j]]
    ensures a in ids[..j]
  {
    assert !Precedes(scores, ids[j], a);
    assert ids[j] in ids;
    var i :| 0 <= i < |ids| && ids[i] == a;
    assert i < j;
  }

  // ----- one fragment per document -------------------------------------------------------------

  datatype Fragment = Fragment(node: string, document: string)

  /** No earlier fragment is of the same document. */
  predicate BestOfItsDocument(ranked: seq<Fragment>, i: nat) {
    i < |ranked| && forall j :: 0 <= j < i ==> ranked[j].document != ranked[i].document
  }

  /** The places of the best fragments, in rank order. */
  function BestPlaces(ranked: seq<Fragment>, n: nat): seq<nat>
    requires n <= |ranked|
  {
    if n == 0 then []
    else BestPlaces(ranked, n - 1) + if BestOfItsDocument(ranked, n - 1) then [n - 1] else []
  }

  // Every fragment that is the best of its document has its place, in rank order.
  lemma {:induction false} BestPlacesAre(ranked: seq<Fragment>, n: nat)
    requires n <= |ranked|
    ensures forall i: nat :: i in BestPlaces(ranked, n) <==> i < n && BestOfItsDocument(ranked, i)
    ensures forall a, b :: 0 <= a < b < |BestPlaces(ranked, n)| ==> BestPlaces(ranked, n)[a] < BestPlaces(ranked, n)[b]
  {
    if n > 0 {
      var before := BestPlaces(ranked, n - 1);
      BestPlacesAre(ranked, n - 1);
      assert forall a :: 0 <= a < |before| ==> before[a] in before;
    }
  }

  function Documents(ranked: seq<Fragment>): set<string> {
    set f | f in ranked :: f.document
  }

  function At(ranked: seq<Fragment>, places: seq<nat>): (r: seq<Fragment>)
    requires forall a :: 0 <= a < |places| ==> places[a] < |ranked|
    ensures |r| == |places| && forall a :: 0 <= a < |r| ==> r[a] == ranked[places[a]]
  {
    if places == [] then []
    else
      At(ranked, places[..|places| - 1]) + [ranked[places[|places| - 1]]]
  }

  lemma OneMoreFragment(ranked: seq<Fragment>, i: nat)
    requires i < |ranked|
    ensures ranked[i].document in Documents(ranked[..i]) <==> !BestOfItsDocument(ranked, i)
    ensures Documents(ranked[..i + 1]) == Documents(ranked[..i]) + {ranked[i].document}
  {
    assert ranked[..i + 1] == ranked[..i] + [ranked[i]];
  }

  lemma {:induction false} OnePlacePerDocument(ranked: seq<Fragment>, n: nat)
    requires n <= |ranked|
    ensures |BestPlaces(ranked, n)| == |Documents(ranked[..n])|
  {
    if n > 0 {
      OnePlacePerDocument(ranked, n - 1);
      OneMoreFragment(ranked, n - 1);
    }
  }

  predicate Within(places: seq<nat>, n: nat) {
    forall a :: 0 <= a < |places| ==> places[a] < n
  }

  lemma {:induction false} PlacesWithin(ranked: seq<Fragment>, n: nat)
    requires n <= |ranked|
    ensures Within(BestPlaces(ranked, n), n)
  {
    if n > 0 {
      PlacesWithin(ranked, n - 1);
    }
  }

  /** The best fragments of the first `n`. */
  function BestFragments(ranked: seq<Fragment>, n: nat): seq<Fragment>
    requires n <= |ranked|
  {
    PlacesWithin(ranked, n);
    At(ranked, BestPlaces(ranked, n))
  }

  lemma OneMoreBest(ranked: seq<Fragment>, i: nat)
    requires i < |ranked|
    ensures BestFragments(ranked, i + 1) == BestFragments(ranked, i) + if BestOfItsDocument(ranked, i) then [ranked[i]] else []
  {
    PlacesWithin(ranked, i);
    if BestOfItsDocument(ranked, i) {
      var places := BestPlaces(ranked, i + 1);
      assert places[..|places| - 1] == BestPlaces(ranked, i);
    }
  }

  /** `_select_requirement_documents`: the loop stops as soon as `limit` are selected. */
  method SelectRequirementDocuments(ranked: seq<Fragment>, limit: int) returns (selected: seq<Fragment>)
    ensures |selected| == Shorter(if limit < 1 then 1 else limit, |Documents(ranked)|)
    ensures selected <= BestFragments(ranked, |ranked|)
  {
    selected := [];
    var documents: set<string> := {};
    for i := 0 to |ranked|
      invariant selected == BestFragments(ranked, i)
      invariant documents == Documents(ranked[..i])
      invariant selected != [] ==> |selected| < limit
    {
      var f := ranked[i];
      OneMoreFragment(ranked, i);
      OneMoreBest(ranked, i);
      if f.document !in documents {
        selected := selected + [f];
        documents := documents + {f.document};
        if |selected| >= limit {
          SelectionIs(ranked, i + 1, limit);
          return;
        }
      }
    }
    SelectionIs(ranked, |ranked|, limit);
  }

  lemma {:induction false} BestGrow(ranked: seq<Fragment>, n: nat, m: nat)
    requires n <= m <= |ranked|
    ensures BestFragments(ranked, n) <= BestFragments(ranked, m)
  {
    if n < m {
      BestGrow(ranked, n, m - 1);
      OneMoreBest(ranked, m - 1);
    }
  }

  lemma EnoughSelected(ranked: seq<Fragment>, n: nat)
    requires n <= |ranked|
    ensures BestFragments(ranked, n) <= BestFragments(ranked, |ranked|)
    ensures |BestFragments(ranked, |ranked|)| == |Documents(ranked)|
  {
    OnePlacePerDocument(ranked, |ranked|);
    assert ranked[..|ranked|] == ranked;
    BestGrow(ranked, n, |ranked|);
  }

  lemma SelectionIs(ranked: seq<Fragment>, n: nat, limit: int)
    requires n <= |ranked|
    requires n == |ranked| || |BestFragments(ranked, n)| >= limit
    requires |BestFragments(ranked, n)| <= 1 || |BestFragments(ranked, n)| <= limit
    requires n < |ranked| ==> BestFragments(ranked, n) != []
    ensures |BestFragments(ranked, n)| == Shorter(if limit < 1 then 1 else limit, |Documents(ranked)|)
    ensures BestFragments(ranked, n) <= BestFragments(ranked, |ranked|)
  {
    EnoughSelected(ranked, n);
  }
}
