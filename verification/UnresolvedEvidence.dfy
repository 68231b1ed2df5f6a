/** Closing the open findings of a predecessor report against a new Code Graph.

    The source keeps resolved edges in lists held by a dictionary and extends those very lists
    while it walks the findings.  The walk is modelled on heap objects, refined to a walk over an
    explicit store, and compared with the rule that treats every finding on its own. */
module UnresolvedEvidence {
  import opened Wrappers

  datatype Location = Location(edgeType: string, sourceRef: string, path: string, startLine: string, endLine: string)

  /** The fields hashed into the key of a finding that has no static edge. */
  datatype Material = Material(location: Location, extractor: string, profileVersion: string, toRef: string)

  /** `edge:<ref>` or `finding-<digest of the material>`; digests are taken to be injective. */
  datatype Key = ByEdge(ref: string) | ByMaterial(material: Material)

  datatype Edge = Edge(edgeId: string, material: Material, staticRef: Option<string>, resolved: bool)

  /** An open item of the predecessor report. */
  datatype Prior = Prior(findingKey: Key, edgeRef: string, location: Location)

  function FindingKey(e: Edge): Key {
    if e.staticRef.Some? && e.staticRef.value != "" then ByEdge(e.staticRef.value) else ByMaterial(e.material)
  }

  predicate HasKey(e: Edge, k: Key) {
    k == FindingKey(e) || (e.staticRef.Some? && k == ByEdge(e.staticRef.value))
  }

  // ----- the per-item rule --------------------------------------------------------

  function KeyHits(edges: seq<Edge>, k: Key): seq<Edge> {
    if edges == [] then []
    else
      var e := edges[|edges| - 1];
      KeyHits(edges[..|edges| - 1], k) + if e.resolved && HasKey(e, k) then [e] else []
  }

  function LocationHits(edges: seq<Edge>, l: Location): seq<Edge> {
    if edges == [] then []
    else
      var e := edges[|edges| - 1];
      LocationHits(edges[..|edges| - 1], l) + if e.resolved && e.material.location == l then [e] else []
  }

  function Ids(edges: seq<Edge>): set<string> {
    set e | e in edges :: e.edgeId
  }

  /** No other open finding shares the location. */
  predicate UniqueLocation(priors: seq<Prior>, i: nat)
    requires i < |priors|
  {
    forall j :: 0 <= j < |priors| && j != i ==> priors[j].location != priors[i].location
  }

  /** The edges that speak for finding `i`. */
  function Hits(edges: seq<Edge>, priors: seq<Prior>, i: nat): seq<Edge>
    requires i < |priors|
  {
    KeyHits(edges, priors[i].findingKey) + KeyHits(edges, ByEdge(priors[i].edgeRef))
    + if UniqueLocation(priors, i) then LocationHits(edges, priors[i].location) else []
  }

  /** A finding closes on the edge its candidates name, when they name exactly one. */
  function Verdict(candidates: seq<Edge>): (v: Option<Edge>)
    ensures v.Some? <==> |Ids(candidates)| == 1
    ensures v.Some? ==> v.value in candidates && Ids(candidates) == {v.value.edgeId}
  {
    if |Ids(candidates)| == 1 then
      SingletonNames(candidates);
      Some(candidates[|candidates| - 1])
    else None
  }

  lemma SingletonNames(candidates: seq<Edge>)
    requires |Ids(candidates)| == 1
    ensures candidates != [] && Ids(candidates) == {candidates[|candidates| - 1].edgeId}
  {
    var id :| id in Ids(candidates);
    assert |Ids(candidates) - {id}| == 0;
    assert Ids(candidates) == {id};
    assert candidates[|candidates| - 1].edgeId in Ids(candidates);
  }

  /** The edge id a finding closes on, as a verdict without the edge. */
  function NamedId(v: Option<Edge>): Option<string> {
    if v.Some? then Some(v.value.edgeId) else None
  }

  lemma SameIdsSameName(a: seq<Edge>, b: seq<Edge>)
    requires Ids(a) == Ids(b)
    ensures NamedId(Verdict(a)) == NamedId(Verdict(b))
  {
  }

  function RuleVerdict(edges: seq<Edge>, priors: seq<Prior>, i: nat): Option<Edge>
    requires i < |priors|
  {
    Verdict(Hits(edges, priors, i))
  }

  // ----- the walk over a store of lists ------------------------------------------------

  type Store = map<Key, seq<Edge>>

  function Read(s: Store, k: Key): seq<Edge> {
    if k in s then s[k] else []
  }

  function Store1(s: Store, k: Key, e: Edge): Store {
    s[k := Read(s, k) + [e]]
  }

  function StoreEdge(s: Store, e: Edge): Store {
    if !e.resolved then s
    else
      var s1 := Store1(s, FindingKey(e), e);
      if e.staticRef.Some? && ByEdge(e.staticRef.value) != FindingKey(e) then Store1(s1, ByEdge(e.staticRef.value), e)
      else s1
  }

  function InitialStore(edges: seq<Edge>): Store {
    if edges == [] then map[]
    else StoreEdge(InitialStore(edges[..|edges| - 1]), edges[|edges| - 1])
  }

  lemma {:induction false} InitialReads(edges: seq<Edge>, k: Key)
    ensures Read(InitialStore(edges), k) == KeyHits(edges, k)
    ensures k in InitialStore(edges) <==> KeyHits(edges, k) != []
  {
    if edges != [] {
      InitialReads(edges[..|edges| - 1], k);
    }
  }

  /** What finding `i` sees when the lists hold `s`. */
  function Candidates(s: Store, edges: seq<Edge>, priors: seq<Prior>, i: nat): seq<Edge>
    requires i < |priors|
  {
    Read(s, priors[i].findingKey) + Read(s, ByEdge(priors[i].edgeRef))
    + if UniqueLocation(priors, i) then LocationHits(edges, priors[i].location) else []
  }

  /** The lists after finding `i`: its own list, if there is one, has been extended in place. */
  function Extended(s: Store, edges: seq<Edge>, priors: seq<Prior>, i: nat): Store
    requires i < |priors|
  {
    var k := priors[i].findingKey;
    if k in s then s[k := Candidates(s, edges, priors, i)] else s
  }

  /** The lists after the first `n` findings. */
  function StoreAfter(edges: seq<Edge>, priors: seq<Prior>, n: nat): Store
    requires n <= |priors|
  {
    if n == 0 then InitialStore(edges) else Extended(StoreAfter(edges, priors, n - 1), edges, priors, n - 1)
  }

  function WalkVerdict(edges: seq<Edge>, priors: seq<Prior>, i: nat): Option<Edge>
    requires i < |priors|
  {
    Verdict(Candidates(StoreAfter(edges, priors, i), edges, priors, i))
  }

  // ----- when sharing the lists does no harm -------------------------------------------

  /** Finding `i`, handled first, leaves nothing in a list finding `j` reads that `j` does not
      see anyway.  A caller can decide this from the predecessor report alone. */
  predicate Harmless(priors: seq<Prior>, i: nat, j: nat)
    requires i < |priors| && j < |priors|
  {
    var p, q := priors[i], priors[j];
    p.findingKey == q.findingKey || p.findingKey == ByEdge(q.edgeRef) ==>
      && ByEdge(p.edgeRef) in {p.findingKey, q.findingKey, ByEdge(q.edgeRef)}
      && !UniqueLocation(priors, i)
  }

  predicate NoHarmfulSharing(priors: seq<Prior>) {
    forall i, j :: 0 <= i < j < |priors| ==> Harmless(priors, i, j)
  }

  /** The ids the lists read by finding `j` hold. */
  function View(s: Store, q: Prior): set<string> {
    Ids(Read(s, q.findingKey)) + Ids(Read(s, ByEdge(q.edgeRef)))
  }

  lemma IdsConcat(a: seq<Edge>, b: seq<Edge>)
    ensures Ids(a + b) == Ids(a) + Ids(b)
  {
  }

  lemma ExtendKeepsView(s: Store, edges: seq<Edge>, priors: seq<Prior>, i: nat, j: nat)
    requires i < |priors| && j < |priors| && Harmless(priors, i, j)
    ensures View(Extended(s, edges, priors, i), priors[j]) == View(s, priors[j])
  {
    var p := priors[i];
    IdsConcat(Read(s, p.findingKey), Read(s, ByEdge(p.edgeRef)));
    assert Read(s, p.findingKey) + Read(s, ByEdge(p.edgeRef)) + [] == Read(s, p.findingKey) + Read(s, ByEdge(p.edgeRef));
  }

  lemma {:induction false} ViewUnchanged(edges: seq<Edge>, priors: seq<Prior>, n: nat, j: nat)
    requires n <= j < |priors| && NoHarmfulSharing(priors)
    ensures View(StoreAfter(edges, priors, n), priors[j]) == View(InitialStore(edges), priors[j])
  {
    if n > 0 {
      ViewUnchanged(edges, priors, n - 1, j);
      assert Harmless(priors, n - 1, j);
      ExtendKeepsView(StoreAfter(edges, priors, n - 1), edges, priors, n - 1, j);
    }
  }

  lemma CandidateIds(s: Store, edges: seq<Edge>, priors: seq<Prior>, i: nat)
    requires i < |priors|
    ensures Ids(Candidates(s, edges, priors, i)) ==
            View(s, priors[i]) + (if UniqueLocation(priors, i) then Ids(LocationHits(edges, priors[i].location)) else {})
  {
    var own, byRef := Read(s, priors[i].findingKey), Read(s, ByEdge(priors[i].edgeRef));
    IdsConcat(own, byRef);
    IdsConcat(own + byRef, if UniqueLocation(priors, i) then LocationHits(edges, priors[i].location) else []);
  }

  // With no harmful sharing the walk closes the same findings, on the same edges, as the rule.
  lemma WalkFollowsRule(edges: seq<Edge>, priors: seq<Prior>, i: nat)
    requires i < |priors| && NoHarmfulSharing(priors)
    ensures NamedId(WalkVerdict(edges, priors, i)) == NamedId(RuleVerdict(edges, priors, i))
  {
    InitialReads(edges, priors[i].findingKey);
    InitialReads(edges, ByEdge(priors[i].edgeRef));
    assert Candidates(InitialStore(edges), edges, priors, i) == Hits(edges, priors, i);
    ViewUnchanged(edges, priors, i, i);
    CandidateIds(InitialStore(edges), edges, priors, i);
    CandidateIds(StoreAfter(edges, priors, i), edges, priors, i);
    SameIdsSameName(Candidates(StoreAfter(edges, priors, i), edges, priors, i), Hits(edges, priors, i));
  }

  // ----- why the condition is needed ------------------------------------------------------

  lemma {:induction false} ListsOnlyGrow(edges: seq<Edge>, priors: seq<Prior>, m: nat, n: nat, k: Key)
    requires m <= n <= |priors|
    ensures k in StoreAfter(edges, priors, m) ==> k in StoreAfter(edges, priors, n)
    ensures Ids(Read(StoreAfter(edges, priors, m), k)) <= Ids(Read(StoreAfter(edges, priors, n), k))
    decreases n
  {
    if m < n {
      ListsOnlyGrow(edges, priors, m, n - 1, k);
      CandidateIds(StoreAfter(edges, priors, n - 1), edges, priors, n - 1);
    }
  }

  // After finding `i`, its list holds the ids its edge reference and unique location brought in.
  lemma ListAfter(edges: seq<Edge>, priors: seq<Prior>, i: nat, j: nat, e: Edge)
    requires i < j < |priors|
    requires KeyHits(edges, priors[i].findingKey) != []
    requires e in KeyHits(edges, ByEdge(priors[i].edgeRef))
             || (UniqueLocation(priors, i) && e in LocationHits(edges, priors[i].location))
    ensures e.edgeId in Ids(Read(StoreAfter(edges, priors, j), priors[i].findingKey))
  {
    var p := priors[i];
    var before := StoreAfter(edges, priors, i);
    assert p.findingKey in before by {
      InitialReads(edges, p.findingKey);
      ListsOnlyGrow(edges, priors, 0, i, p.findingKey);
    }
    assert e.edgeId in Ids(Candidates(before, edges, priors, i)) by {
      InitialReads(edges, ByEdge(p.edgeRef));
      ListsOnlyGrow(edges, priors, 0, i, ByEdge(p.edgeRef));
      CandidateIds(before, edges, priors, i);
    }
    assert StoreAfter(edges, priors, i + 1) == Extended(before, edges, priors, i);
    ListsOnlyGrow(edges, priors, i + 1, j, p.findingKey);
  }

  function Longer(s: string): (r: string)
    ensures r != s
  {
    s + "x"
  }

  /** A resolved edge carrying key `k`, at the given material when the key leaves it open. */
  function EdgeWithKey(id: string, k: Key, other: Material): (e: Edge)
    ensures e.resolved && HasKey(e, k)
  {
    match k
    case ByEdge(ref) => Edge(id, other, Some(ref), true)
    case ByMaterial(m) => Edge(id, m, None, true)
  }

  /** Material that neither finding key of `q` nor its location matches. */
  function Elsewhere(q: Prior, l: Location): (m: Material)
    ensures ByMaterial(m) != q.findingKey && m.location == l
  {
    Material(l, "", "", if q.findingKey.ByMaterial? then Longer(q.findingKey.material.toRef) else "")
  }

  lemma PairHits(a: Edge, b: Edge, k: Key, l: Location)
    requires a.resolved && b.resolved
    ensures KeyHits([a, b], k) == (if HasKey(a, k) then [a] else []) + (if HasKey(b, k) then [b] else [])
    ensures LocationHits([a, b], l) == (if a.material.location == l then [a] else [])
                                       + (if b.material.location == l then [b] else [])
  {
    assert [a, b][..1] == [a] && [a][..0] == [];
    assert KeyHits([a], k) == if HasKey(a, k) then [a] else [];
    assert LocationHits([a], l) == if a.material.location == l then [a] else [];
  }

  /** A graph of two resolved edges on which a harmful pair makes the walk differ from the rule. */
  function HarmWitness(priors: seq<Prior>, i: nat, j: nat): seq<Edge>
    requires i < j < |priors|
  {
    var p, q := priors[i], priors[j];
    var away := Elsewhere(q, q.location.(path := Longer(q.location.path)));
    var a := EdgeWithKey("a", p.findingKey, away);
    var b := if UniqueLocation(priors, i) then Edge("b", Elsewhere(q, p.location), None, true)
             else EdgeWithKey("b", ByEdge(p.edgeRef), away);
    [a, b]
  }

  lemma HarmRuleCloses(priors: seq<Prior>, i: nat, j: nat)
    requires i < j < |priors| && !Harmless(priors, i, j)
    ensures NamedId(RuleVerdict(HarmWitness(priors, i, j), priors, j)) == Some("a")
  {
    var p, q := priors[i], priors[j];
    var edges := HarmWitness(priors, i, j);
    var a, b := edges[0], edges[1];
    PairHits(a, b, q.findingKey, q.location);
    PairHits(a, b, ByEdge(q.edgeRef), q.location);
    assert !HasKey(b, q.findingKey) && !HasKey(b, ByEdge(q.edgeRef)) && b.material.location != q.location;
    var hits := Hits(edges, priors, j);
    assert forall n :: 0 <= n < |hits| ==> hits[n] == a;
    assert hits[0] in hits;
    assert Ids(hits) == {"a"};
  }

  lemma HarmWalkSeesBoth(priors: seq<Prior>, i: nat, j: nat)
    requires i < j < |priors| && !Harmless(priors, i, j)
    ensures NamedId(WalkVerdict(HarmWitness(priors, i, j), priors, j)) == None
  {
    var p := priors[i];
    var edges := HarmWitness(priors, i, j);
    var a, b := edges[0], edges[1];
    PairHits(a, b, p.findingKey, p.location);
    PairHits(a, b, ByEdge(p.edgeRef), p.location);
    assert a in KeyHits(edges, p.findingKey);
    assert b in KeyHits(edges, ByEdge(p.edgeRef))
           || (UniqueLocation(priors, i) && b in LocationHits(edges, p.location));
    ListAfter(edges, priors, i, j, b);
    InitialReads(edges, p.findingKey);
    ListsOnlyGrow(edges, priors, 0, j, p.findingKey);
    BothSeen(edges, priors, j, p.findingKey);
  }

  lemma BothSeen(edges: seq<Edge>, priors: seq<Prior>, j: nat, k: Key)
    requires j < |priors| && (k == priors[j].findingKey || k == ByEdge(priors[j].edgeRef))
    requires {"a", "b"} <= Ids(Read(StoreAfter(edges, priors, j), k))
    ensures WalkVerdict(edges, priors, j).None?
  {
    CandidateIds(StoreAfter(edges, priors, j), edges, priors, j);
    var seen := Candidates(StoreAfter(edges, priors, j), edges, priors, j);
    assert "a" in Ids(seen) && "b" in Ids(seen);
  }

  /** The walk closes what the rule closes, on the same edge ids, whatever the graph. */
  ghost predicate AlwaysFollowsRule(priors: seq<Prior>) {
    forall edges: seq<Edge>, i :: 0 <= i < |priors| ==>
      NamedId(WalkVerdict(edges, priors, i)) == NamedId(RuleVerdict(edges, priors, i))
  }

  // The in-place walk is the per-item rule for every graph exactly when no earlier finding
  // leaves something in a list that a later finding reads and does not see anyway.
  lemma SharingIsHarmlessIff(priors: seq<Prior>)
    ensures AlwaysFollowsRule(priors) <==> NoHarmfulSharing(priors)
  {
    if NoHarmfulSharing(priors) {
      forall edges: seq<Edge>, i | 0 <= i < |priors|
        ensures NamedId(WalkVerdict(edges, priors, i)) == NamedId(RuleVerdict(edges, priors, i))
      {
        WalkFollowsRule(edges, priors, i);
      }
    } else {
      var i, j :| 0 <= i < j < |priors| && !Harmless(priors, i, j);
      HarmRuleCloses(priors, i, j);
      HarmWalkSeesBoth(priors, i, j);
      assert !AlwaysFollowsRule(priors);
    }
  }

  // The plain form of the condition: distinct keys, none of them another finding's edge key.
  lemma SeparatedKeysAreHarmless(priors: seq<Prior>)
    requires forall i, j :: 0 <= i < |priors| && 0 <= j < |priors| && i != j ==>
               priors[i].findingKey != priors[j].findingKey && priors[i].findingKey != ByEdge(priors[j].edgeRef)
    ensures NoHarmfulSharing(priors)
  {
  }

  // When an edge id names one edge of the graph, the edges agree and not only their ids.
  lemma WalkEqualsRule(edges: seq<Edge>, priors: seq<Prior>, i: nat)
    requires i < |priors| && NoHarmfulSharing(priors)
    requires forall e, f :: e in edges && f in edges && e.edgeId == f.edgeId ==> e == f
    ensures WalkVerdict(edges, priors, i) == RuleVerdict(edges, priors, i)
  {
    WalkFollowsRule(edges, priors, i);
    CandidatesAreEdges(edges, priors, i, i);
    CandidatesAreEdges(edges, priors, 0, i);
    InitialReads(edges, priors[i].findingKey);
    InitialReads(edges, ByEdge(priors[i].edgeRef));
    assert Candidates(InitialStore(edges), edges, priors, i) == Hits(edges, priors, i);
  }

  lemma CandidatesAreEdges(edges: seq<Edge>, priors: seq<Prior>, n: nat, i: nat)
    requires n <= i < |priors|
    ensures forall e :: e in Candidates(StoreAfter(edges, priors, n), edges, priors, i) ==> e in edges
  {
    StoreHoldsEdges(edges, priors, n);
    LocationHitsAreEdges(edges, priors[i].location);
  }

  lemma {:induction false} LocationHitsAreEdges(edges: seq<Edge>, l: Location)
    ensures forall e :: e in LocationHits(edges, l) ==> e in edges
  {
    if edges != [] {
      LocationHitsAreEdges(edges[..|edges| - 1], l);
    }
  }

  lemma {:induction false} KeyHitsAreEdges(edges: seq<Edge>, k: Key)
    ensures forall e :: e in KeyHits(edges, k) ==> e in edges
  {
    if edges != [] {
      KeyHitsAreEdges(edges[..|edges| - 1], k);
    }
  }

  lemma {:induction false} StoreHoldsEdges(edges: seq<Edge>, priors: seq<Prior>, n: nat)
    requires n <= |priors|
    ensures forall k, e :: e in Read(StoreAfter(edges, priors, n), k) ==> e in edges
  {
    if n == 0 {
      forall k, e | e in Read(InitialStore(edges), k) ensures e in edges {
        InitialReads(edges, k);
        KeyHitsAreEdges(edges, k);
      }
    } else {
      StoreHoldsEdges(edges, priors, n - 1);
      LocationHitsAreEdges(edges, priors[n - 1].location);
      var s := StoreAfter(edges, priors, n - 1);
      assert forall e :: e in Candidates(s, edges, priors, n - 1) ==> e in edges;
      forall k, e | e in Read(StoreAfter(edges, priors, n), k) ensures e in edges {
        assert Read(StoreAfter(edges, priors, n), k) == Read(s, k)
               || Read(StoreAfter(edges, priors, n), k) == Candidates(s, edges, priors, n - 1);
        assert e in Read(s, k) ==> e in Read(StoreAfter(edges, priors, n - 1), k);
      }
    }
  }

  // ----- the same walk on shared list objects ------------------------------------------------

  class EdgeList {
    var items: seq<Edge>

    constructor (items: seq<Edge>)
      ensures this.items == items
    {
      this.items := items;
    }

    /** Appends another list's items, which may be this list's own. */
    method Extend(more: EdgeList)
      modifies this
      ensures items == old(items) + old(more.items)
    {
      items := items + more.items;
    }

    method ExtendWith(more: seq<Edge>)
      modifies this
      ensures items == old(items) + more
    {
      items := items + more;
    }
  }

  ghost predicate Separate(lists: map<Key, EdgeList>) {
    forall k, l :: k in lists && l in lists && k != l ==> lists[k] != lists[l]
  }

  ghost function Contents(lists: map<Key, EdgeList>): Store
    reads lists.Values
  {
    map k | k in lists :: lists[k].items
  }

  method AppendTo(lists: map<Key, EdgeList>, k: Key, e: Edge) returns (r: map<Key, EdgeList>)
    requires Separate(lists)
    modifies lists.Values
    ensures Separate(r) && fresh(r.Values - lists.Values)
    ensures Contents(r) == Store1(old(Contents(lists)), k, e)
  {
    ghost var s := Contents(lists);
    if k in lists {
      lists[k].ExtendWith([e]);
      r := lists;
      assert forall l :: l in lists && l != k ==> lists[l].items == s[l];
    } else {
      var list := new EdgeList([e]);
      r := lists[k := list];
      assert forall l :: l in lists ==> lists[l].items == s[l];
    }
    assert r.Keys == Store1(s, k, e).Keys;
    assert forall l :: l in r ==> r[l].items == Store1(s, k, e)[l];
  }

  method IndexByKey(edges: seq<Edge>) returns (lists: map<Key, EdgeList>)
    ensures Separate(lists) && fresh(lists.Values)
    ensures Contents(lists) == InitialStore(edges)
  {
    lists := map[];
    for n := 0 to |edges|
      invariant Separate(lists) && fresh(lists.Values)
      invariant Contents(lists) == InitialStore(edges[..n])
    {
      var e := edges[n];
      assert edges[..n + 1][..n] == edges[..n];
      if e.resolved {
        lists := AppendTo(lists, FindingKey(e), e);
        if e.staticRef.Some? && ByEdge(e.staticRef.value) != FindingKey(e) {
          lists := AppendTo(lists, ByEdge(e.staticRef.value), e);
        }
      }
    }
    assert edges[..|edges|] == edges;
  }

  /** Later edges overwrite earlier ones of the same id. */
  function ById(edges: seq<Edge>): (m: map<string, Edge>)
    ensures m.Keys == Ids(edges)
    ensures edges != [] ==> m[edges[|edges| - 1].edgeId] == edges[|edges| - 1]
  {
    if edges == [] then map[]
    else
      var last := edges[|edges| - 1];
      assert edges == edges[..|edges| - 1] + [last];
      ById(edges[..|edges| - 1])[last.edgeId := last]
  }

  /** One finding: takes its list, or a new one, and extends it in place. */
  method CollectCandidates(lists: map<Key, EdgeList>, edges: seq<Edge>, priors: seq<Prior>, i: nat)
    returns (candidates: EdgeList)
    requires i < |priors| && Separate(lists)
    modifies lists.Values
    ensures Contents(lists) == Extended(old(Contents(lists)), edges, priors, i)
    ensures candidates.items == Candidates(old(Contents(lists)), edges, priors, i)
  {
    var k, byRef := priors[i].findingKey, ByEdge(priors[i].edgeRef);
    ghost var s := Contents(lists);
    if k in lists {
      candidates := lists[k];
    } else {
      candidates := new EdgeList([]);
    }
    if byRef in lists {
      candidates.Extend(lists[byRef]);
    }
    assert candidates.items == Read(s, k) + Read(s, byRef);
    if UniqueLocation(priors, i) {
      candidates.ExtendWith(LocationHits(edges, priors[i].location));
    }
    assert candidates.items == Candidates(s, edges, priors, i);
    ExtendedIs(s, Contents(lists), edges, priors, i);
  }

  lemma ExtendedIs(s: Store, s': Store, edges: seq<Edge>, priors: seq<Prior>, i: nat)
    requires i < |priors| && s'.Keys == s.Keys
    requires forall l :: l in s && l != priors[i].findingKey ==> s'[l] == s[l]
    requires priors[i].findingKey in s ==> s'[priors[i].findingKey] == Candidates(s, edges, priors, i)
    ensures s' == Extended(s, edges, priors, i)
  {
    assert forall l :: l in s ==> s'[l] == Extended(s, edges, priors, i)[l];
  }

  method CloseOne(lists: map<Key, EdgeList>, edges: seq<Edge>, priors: seq<Prior>, i: nat) returns (v: Option<Edge>)
    requires i < |priors| && Separate(lists)
    modifies lists.Values
    ensures Contents(lists) == Extended(old(Contents(lists)), edges, priors, i)
    ensures v == Verdict(Candidates(old(Contents(lists)), edges, priors, i))
  {
    var candidates := CollectCandidates(lists, edges, priors, i);
    var unique := ById(candidates.items);
    if |unique| != 1 {
      return None;
    }
    SingletonNames(candidates.items);
    var id :| id in unique;
    return Some(unique[id]);
  }

  /** The closing loop of the source, over the lists it shares. */
  method CloseFindings(edges: seq<Edge>, priors: seq<Prior>) returns (verdicts: seq<Option<Edge>>)
    ensures |verdicts| == |priors|
    ensures forall i :: 0 <= i < |priors| ==> verdicts[i] == WalkVerdict(edges, priors, i)
  {
    var lists := IndexByKey(edges);
    verdicts := [];
    for i := 0 to |priors|
      invariant Separate(lists) && fresh(lists.Values)
      invariant Contents(lists) == StoreAfter(edges, priors, i)
      invariant |verdicts| == i
      invariant forall n :: 0 <= n < i ==> verdicts[n] == WalkVerdict(edges, priors, n)
    {
      var v := CloseOne(lists, edges, priors, i);
      verdicts := verdicts + [v];
    }
  }
}
